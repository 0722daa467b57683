/**
  The coordinator in the form of its source: an object whose methods update its
  variables, its session storage and the continuations of its outstanding calls.

  What the code can read is in ordinary fields. When the server acted on a call, where a
  shown status comes from, the clocks and the whole run so far are ghost, so the code
  cannot depend on them. `Valid` says that the object is in the last state of a run of
  the transition system in `FolderSync`; its entry points extend that run by exactly one
  event, so every theorem about runs is a theorem about the object.
 */
module FolderCoordinator {
  import opened Basics
  import opened FolderStatus
  import opened FolderSync
  import opened FolderSyncInvariant
  import opened FolderSyncSteps
  import opened FolderSyncRuns
  import opened FolderSyncSending
  import opened FolderSyncRequests

  /** What the code awaiting an answer remembers. */
  datatype Continuation = Continuation(purpose: Purpose, device: Id, epoch: nat)

  /** Where a shown status comes from. */
  datatype Origin = Origin(asOf: nat, device: Id, epoch: nat)

  ghost function CallOf(k: Continuation, at: Option<nat>): Call {
    Call(k.purpose, k.device, k.epoch, at)
  }

  ghost function CallsOf(waiting: map<nat, Continuation>, served: map<nat, nat>): Calls {
    map id | id in waiting :: CallOf(waiting[id], if id in served then Some(served[id]) else None)
  }

  ghost function ShownOf(status: Option<Status>, from: Origin): Option<Shown> {
    if status.None? then None else Some(Shown(status.value, from.asOf, from.device, from.epoch))
  }

  lemma IssuedCalls(waiting: map<nat, Continuation>, served: map<nat, nat>, n: nat, k: Continuation)
    ensures CallsOf(waiting[n := k], served - {n}) == CallsOf(waiting, served)[n := CallOf(k, None)]
  {
  }

  lemma AnsweredCalls(waiting: map<nat, Continuation>, served: map<nat, nat>, id: nat)
    ensures CallsOf(waiting - {id}, served) == CallsOf(waiting, served) - {id}
  {
  }

  lemma ServedCalls(waiting: map<nat, Continuation>, served: map<nat, nat>, id: nat, at: nat)
    requires id in waiting
    ensures CallsOf(waiting, served[id := at]) == CallsOf(waiting, served)[id := CallOf(waiting[id], Some(at))]
  {
  }

  class Coordinator {
    var deviceId: Option<Id>
    var unlocked: bool
    var pollingEnabled: bool
    var mutationLocked: bool
    var generation: nat
    var accessEpoch: nat
    var currentStatus: Option<Status>
    var pendingAddressRefresh: Option<AddressRequest>
    var settingsReceipts: map<Id, SettingsBody>
    var runReceipts: map<Id, RunBody>
    var offerReceipts: map<Id, OfferBody>
    var waiting: map<nat, Continuation>
    var nextCall: nat
    ghost var served: map<nat, nat>
    ghost var shownFrom: Origin
    ghost var clock: nat
    ghost var ackedAt: nat
    ghost var shownAt: nat
    ghost var run: Run

    ghost function View(): State
      reads this
    {
      State(deviceId, unlocked, pollingEnabled, mutationLocked, generation, accessEpoch,
            ShownOf(currentStatus, shownFrom), pendingAddressRefresh, settingsReceipts, runReceipts, offerReceipts,
            CallsOf(waiting, served), nextCall, clock, ackedAt, shownAt)
    }

    ghost predicate Valid()
      reads this
    {
      IsRun(run) && Last(run) == View()
    }

    /** Adds the step just made to the run. */
    ghost method Record(e: Event)
      requires IsRun(run) && IsStep(Last(run), e, View())
      modifies this`run
      ensures Valid() && run == Then(old(run), e, View()) && View() == old(View())
      ensures Inv(old(Last(run))) && IsStep(old(Last(run)), e, View())
    {
      hide IsStep, CallsOf;
      RunInv(run, |run.states| - 1);
      ThenIsRun(run, e, View());
      run := Then(run, e, View());
    }

    constructor ()
      ensures Valid() && run == Run([INITIAL], [])
    {
      deviceId := None;
      unlocked := false;
      pollingEnabled := false;
      mutationLocked := false;
      generation := 0;
      accessEpoch := 0;
      currentStatus := None;
      pendingAddressRefresh := None;
      settingsReceipts := map[];
      runReceipts := map[];
      offerReceipts := map[];
      waiting := map[];
      nextCall := 0;
      served, clock, ackedAt, shownAt := map[], 0, 0, 0;
      run := Run([INITIAL], []);
    }

    /** Forgets what is shown, and makes every status read obsolete. */
    method Forget()
      modifies this
      ensures View() == old(View()).(current := None, generation := old(generation) + 1)
      ensures run == old(run)
    {
      hide CallsOf;
      currentStatus := None;
      generation := generation + 1;
    }

    method ChangeAccess(device: Option<Id>, unlock: bool)
      modifies this
      ensures View() == DoSetAccess(old(View()), device, unlock)
      ensures run == old(run)
    {
      hide CallsOf, ShownOf;
      Forget();
      accessEpoch := accessEpoch + 1;
      pendingAddressRefresh := None;
      deviceId := device;
      unlocked := unlock && deviceId.Some?;
    }

    method ChangePolling(enabled: bool)
      modifies this
      ensures View() == DoSetPolling(old(View()), enabled)
      ensures run == old(run)
    {
      hide CallsOf, ShownOf;
      pollingEnabled := enabled;
      if !pollingEnabled {
        generation := generation + 1;
      }
    }

    /** One network call; its continuation is kept until the answer arrives. */
    method CallApi(purpose: Purpose, device: Id, epoch: nat)
      modifies this`waiting, this`served, this`nextCall
      ensures View() == Issue(old(View()), purpose, device, epoch)
    {
      hide CallsOf;
      IssuedCalls(waiting, served, nextCall, Continuation(purpose, device, epoch));
      waiting := waiting[nextCall := Continuation(purpose, device, epoch)];
      served := served - {nextCall};
      nextCall := nextCall + 1;
    }

    /** The part of `refresh` before its wait. */
    method ReadStatus()
      modifies this
      ensures View() == DoRefresh(old(View()))
      ensures run == old(run)
    {
      hide CallsOf;
      if !unlocked || deviceId.None? || !pollingEnabled || mutationLocked {
        return;
      }
      generation := generation + 1;
      CallApi(Poll(generation), deviceId.value, accessEpoch);
    }

    predicate MutationAvailable()
      reads this
    {
      unlocked && deviceId.Some? && !mutationLocked
    }

    /** The part of `mutate` before its first wait. */
    method Mutate(m: Mutation)
      modifies this
      ensures View() == Begin(old(View()), m)
      ensures run == old(run)
    {
      if !MutationAvailable() {
        return;
      }
      mutationLocked := true;
      generation := generation + 1;
      CallApi(Post(m), deviceId.value, accessEpoch);
    }

    /** `link`: the confirmed link of a folder in the shown status. */
    function LinkOf(folderId: Id): Option<Share>
      reads this
    {
      if currentStatus.None? then None else Link(currentStatus.value, folderId)
    }

    method SettingsObservation(body: SettingsBody) returns (o: Observation)
      ensures o == Observe(View(), body)
    {
      var link := LinkOf(body.folderId);
      if link.None? {
        return NoLink;
      }
      var state := link.value.linkSettings.value;
      if state.changeId == body.changeId && Some(state.changedBy) == deviceId
         && body.expectedRevision + 1 == state.revision && state.settings == body.settings {
        return Applied;
      }
      if state.pendingChange.Some? && FromRequest(state.pendingChange.value) == body {
        return Pending;
      }
      if state.conflictedChange.Some? && FromRequest(state.conflictedChange.value) == body {
        return Conflict;
      }
      if state.revision != body.expectedRevision {
        return Stale;
      }
      return Unknown;
    }

    method ClearPendingSettings(device: Id, cleared: bool)
      modifies this`settingsReceipts
      ensures View() == DropSettings(old(View()), device, cleared)
    {
      if cleared {
        settingsReceipts := settingsReceipts - {device};
      }
    }

    method ClearPendingRun(device: Id, cleared: bool)
      modifies this`runReceipts
      ensures View() == DropRun(old(View()), device, cleared)
    {
      if cleared {
        runReceipts := runReceipts - {device};
      }
    }

    method ClearPendingOffer(device: Id, cleared: bool)
      modifies this`offerReceipts
      ensures View() == DropOffer(old(View()), device, cleared)
    {
      if cleared {
        offerReceipts := offerReceipts - {device};
      }
    }

    method SendLinkSettings(body: SettingsBody, stored: bool, cleared: bool)
      requires CanMutate(View())
      modifies this
      ensures View() == SendSettings(old(View()), body, stored, cleared)
      ensures run == old(run)
    {
      hide Observe, Begin;
      if !stored {
        return;
      }
      var device := deviceId.value;
      settingsReceipts := settingsReceipts[device := body];
      var observed := SettingsObservation(body);
      match observed {
        case Applied => ClearPendingSettings(device, cleared);
        case Pending => ClearPendingSettings(device, cleared);
        case Conflict => ClearPendingSettings(device, cleared);
        case Stale =>
        case NoLink =>
        case Unknown => Mutate(ChangeSettings(body));
      }
    }

    method RequestLinkSettings(folderId: Id, settings: Settings, newId: Id, stored: bool, cleared: bool)
      modifies this
      ensures View() == DoUpdateSettings(old(View()), folderId, settings, newId, stored, cleared)
      ensures run == old(run)
    {
      hide SendSettings;
      if !MutationAvailable() {
        return;
      }
      var share := LinkOf(folderId);
      if share.None? {
        return;
      }
      if deviceId.value in settingsReceipts {
        var saved := settingsReceipts[deviceId.value];
        if saved.folderId != folderId || saved.settings != settings {
          return;
        }
        SendLinkSettings(saved, stored, cleared);
        return;
      }
      var state := share.value.linkSettings.value;
      if state.pendingChange.Some? {
        if state.pendingChange.value.settings != settings {
          return;
        }
        SendLinkSettings(FromRequest(state.pendingChange.value), stored, cleared);
        return;
      }
      SendLinkSettings(SettingsBody(folderId, newId, state.revision, settings), stored, cleared);
    }

    method RetryPendingLinkSettings(stored: bool, cleared: bool)
      modifies this
      ensures View() == DoAct(old(View()), RetrySettings(stored, cleared))
      ensures run == old(run)
    {
      hide SendSettings, Begin, DoUpdateSettings, DoRunNow, DoUpdateAddress, DoSendOffer;
      if MutationAvailable() && deviceId.value in settingsReceipts {
        SendLinkSettings(settingsReceipts[deviceId.value], stored, cleared);
      }
    }

    method DiscardPendingLinkSettings(cleared: bool)
      modifies this
      ensures View() == DoAct(old(View()), DiscardSettings(cleared))
      ensures run == old(run)
    {
      if MutationAvailable() {
        ClearPendingSettings(deviceId.value, cleared);
      }
    }

    method SendRunNow(body: RunBody, stored: bool)
      requires CanMutate(View())
      modifies this
      ensures View() == SendRun(old(View()), body, stored)
      ensures run == old(run)
    {
      if !stored {
        return;
      }
      runReceipts := runReceipts[deviceId.value := body];
      Mutate(RequestRun(body));
    }

    method StartRun(folderId: Id, newId: Id, stored: bool)
      modifies this
      ensures View() == DoRunNow(old(View()), folderId, newId, stored)
      ensures run == old(run)
    {
      hide SendRun;
      if !MutationAvailable() {
        return;
      }
      var share := LinkOf(folderId);
      if share.None? {
        return;
      }
      if deviceId.value in runReceipts {
        var saved := runReceipts[deviceId.value];
        if saved.folderId != folderId {
          return;
        }
        SendRunNow(saved, stored);
        return;
      }
      if share.value.linkSettings.value.settings.paused || share.value.linkRun.None? {
        return;
      }
      var last := share.value.linkRun.value;
      if last.pendingRequest.Some? || last.phase == Some(Preparing) || last.phase == Some(Running) {
        return;
      }
      SendRunNow(RunBody(folderId, newId, last.generation, share.value.linkSettings.value.revision), stored);
    }

    method RetryPendingRun(stored: bool)
      modifies this
      ensures View() == DoAct(old(View()), RetryRun(stored))
      ensures run == old(run)
    {
      hide SendRun, Begin, SendSettings, DoUpdateSettings, DoRunNow, DoUpdateAddress, DoSendOffer;
      if MutationAvailable() && deviceId.value in runReceipts {
        SendRunNow(runReceipts[deviceId.value], stored);
      }
    }

    method DiscardPendingRun(cleared: bool)
      modifies this
      ensures View() == DoAct(old(View()), DiscardRun(cleared))
      ensures run == old(run)
    {
      if MutationAvailable() {
        ClearPendingRun(deviceId.value, cleared);
      }
    }

    method RefreshPeerAddress(peerId: Id, candidate: string)
      modifies this
      ensures View() == DoUpdateAddress(old(View()), peerId, candidate)
      ensures run == old(run)
    {
      hide Begin;
      if pendingAddressRefresh.Some? {
        var saved := pendingAddressRefresh.value;
        if saved.peerId != peerId || saved.candidateAddress != candidate {
          return;
        }
        Mutate(MoveAddress(saved));
        return;
      }
      if currentStatus.None? {
        return;
      }
      var peer := FindPeer(currentStatus.value.peers, peerId);
      if peer.None? || peer.value.address.None? || peer.value.address == Some(candidate) || !MutationAvailable() {
        return;
      }
      var request := AddressRequest(nextCall, peerId, peer.value.address.value, candidate);
      pendingAddressRefresh := Some(request);
      Mutate(MoveAddress(request));
    }

    method RetryPeerAddressRefresh(peerId: Id)
      modifies this
      ensures View() == DoAct(old(View()), RetryAddress(peerId))
      ensures run == old(run)
    {
      hide Begin, SendSettings, SendRun, DoUpdateSettings, DoRunNow, DoUpdateAddress, DoSendOffer;
      if pendingAddressRefresh.Some? && pendingAddressRefresh.value.peerId == peerId {
        Mutate(MoveAddress(pendingAddressRefresh.value));
      }
    }

    method CancelPeerAddressRefresh(peerId: Id)
      modifies this
      ensures View() == DoAct(old(View()), CancelAddress(peerId))
      ensures run == old(run)
    {
      if pendingAddressRefresh.Some? && pendingAddressRefresh.value.peerId == peerId {
        pendingAddressRefresh := None;
      }
    }

    method DiscardPendingOffer(cleared: bool)
      modifies this
      ensures View() == DoAct(old(View()), DiscardOffer(cleared))
      ensures run == old(run)
    {
      if unlocked && deviceId.Some? {
        ClearPendingOffer(deviceId.value, cleared);
      }
    }

    method ShareFolder(offer: OfferBody, stored: bool)
      modifies this
      ensures View() == DoSendOffer(old(View()), offer, stored)
      ensures run == old(run)
    {
      hide Begin;
      if !unlocked || deviceId.None? {
        return;
      }
      var device := deviceId.value;
      if device in offerReceipts {
        if offerReceipts[device] != offer {
          return;
        }
      } else {
        if !stored {
          return;
        }
        offerReceipts := offerReceipts[device := offer];
      }
      Mutate(Offer(offer));
    }

    /** `validateLocalLinkSettings(requireStatus(status), deviceId)`. */
    method Validate(status: Status) returns (valid: bool)
      ensures valid <==> ValidFor(status, deviceId)
    {
      valid := RequireStatus(status);
      if !valid {
        return;
      }
      for i := 0 to |status.shares|
        invariant forall j :: 0 <= j < i ==> LocalShare(status.shares[j], deviceId)
      {
        valid := CheckLocal(status.shares[i], deviceId);
        if !valid {
          return;
        }
      }
    }

    method ShowStatus(k: Continuation, ghost at: nat, status: Status)
      modifies this
      ensures View() == Show(old(View()), CallOf(k, Some(at)), status)
      ensures run == old(run)
    {
      hide CallsOf;
      currentStatus := Some(status);
      shownFrom := Origin(at, k.device, k.epoch);
      shownAt := at;
    }

    /** The continuation of `refresh`. */
    method PollAnswered(k: Continuation, ghost at: Option<nat>, reply: Reply, valid: bool)
      requires k.purpose.Poll? && (reply.Reported? ==> at.Some?)
      modifies this
      ensures View() == AnswerPoll(old(View()), CallOf(k, at), reply, valid)
      ensures run == old(run)
    {
      hide FindPeer;
      if !reply.Reported? || !valid {
        return;
      }
      if k.purpose.generation != generation || !unlocked || !pollingEnabled || mutationLocked {
        return;
      }
      ShowStatus(k, at.value, reply.status);
      if pendingAddressRefresh.Some? && FindPeer(reply.status.peers, pendingAddressRefresh.value.peerId).None? {
        pendingAddressRefresh := None;
      }
    }

    /** The handler of `sendPeerAddressRefresh` for an address the server no longer has. */
    method AddressRefused(k: Continuation, ghost at: Option<nat>, request: AddressRequest)
      modifies this
      ensures View() == AddressConflict(old(View()), CallOf(k, at), request)
      ensures run == old(run)
    {
      if accessEpoch != k.epoch {
        return;
      }
      if pendingAddressRefresh == Some(request) {
        pendingAddressRefresh := None;
      }
      Forget();
      CallApi(Reload(generation), k.device, k.epoch);
    }

    /** The continuation of `mutate` and of its caller, when the request was accepted. */
    method MutationAccepted(k: Continuation, ghost at: nat, cleared: bool)
      requires k.purpose.Post?
      modifies this
      ensures View() == AnswerAccepted(old(View()), CallOf(k, Some(at)), cleared)
      ensures run == old(run)
    {
      hide CallsOf;
      ackedAt := Max(ackedAt, at);
      if !unlocked || deviceId != Some(k.device) {
        mutationLocked := false;
        return;
      }
      match k.purpose.mutation {
        case MoveAddress(request) =>
          if accessEpoch != k.epoch {
            mutationLocked := false;
          } else {
            CallApi(Confirm(request), k.device, k.epoch);
          }
        case ChangeSettings(_) =>
          mutationLocked := false;
          ClearPendingSettings(k.device, cleared);
        case RequestRun(_) =>
          mutationLocked := false;
          ClearPendingRun(k.device, cleared);
        case Offer(_) =>
          mutationLocked := false;
          ClearPendingOffer(k.device, cleared);
        case Plain(_) =>
          mutationLocked := false;
      }
    }

    /** The same when the request failed. */
    method MutationRefused(k: Continuation, ghost at: Option<nat>, code: Code, cleared: bool)
      requires k.purpose.Post?
      modifies this
      ensures View() == AnswerRefused(old(View()), CallOf(k, at), code, cleared)
      ensures run == old(run)
    {
      hide AddressConflict;
      mutationLocked := false;
      match k.purpose.mutation {
        case RequestRun(_) =>
          if code == RunConflict || code == RunPending {
            ClearPendingRun(k.device, cleared);
          }
        case MoveAddress(request) =>
          if code == AddressChanged {
            AddressRefused(k, at, request);
          }
        case _ =>
      }
    }

    /** The continuation of the confirming read inside an address update. */
    method ConfirmAnswered(k: Continuation, ghost at: Option<nat>, reply: Reply, valid: bool)
      requires k.purpose.Confirm? && (reply.Reported? ==> at.Some?)
      modifies this
      ensures View() == AnswerConfirm(old(View()), CallOf(k, at), reply, valid)
      ensures run == old(run)
    {
      hide AddressConflict, FindPeer;
      var request := k.purpose.address;
      mutationLocked := false;
      if reply == Refused(AddressChanged) {
        AddressRefused(k, at, request);
        return;
      }
      if !reply.Reported? || !valid || !unlocked || deviceId != Some(k.device) || accessEpoch != k.epoch {
        return;
      }
      ShowStatus(k, at.value, reply.status);
      var peer := FindPeer(reply.status.peers, request.peerId);
      if peer.Some? && peer.value.address == Some(request.candidateAddress) && pendingAddressRefresh == Some(request) {
        pendingAddressRefresh := None;
      }
    }

    /** The continuation of the read that follows a refused address. */
    method ReloadAnswered(k: Continuation, ghost at: Option<nat>, reply: Reply, valid: bool)
      requires k.purpose.Reload? && (reply.Reported? ==> at.Some?)
      modifies this
      ensures View() == AnswerReload(old(View()), CallOf(k, at), reply, valid)
      ensures run == old(run)
    {
      if !reply.Reported? || !valid {
        return;
      }
      if unlocked && deviceId == Some(k.device) && accessEpoch == k.epoch
         && generation == k.purpose.generation && !mutationLocked {
        ShowStatus(k, at.value, reply.status);
      }
    }

    /** Runs every continuation that one answer wakes. */
    method Answered(id: nat, reply: Reply, cleared: bool)
      requires Deliverable(View(), id, reply)
      modifies this
      ensures View() == DoAnswer(old(View()), id, reply, cleared)
      ensures run == old(run)
    {
      hide AnswerPoll, AnswerAccepted, AnswerRefused, AnswerConfirm, AnswerReload, ValidFor;
      var k := waiting[id];
      ghost var at := if id in served then Some(served[id]) else None;
      AnsweredCalls(waiting, served, id);
      waiting := waiting - {id};
      var valid := false;
      if reply.Reported? {
        valid := Validate(reply.status);
      }
      match k.purpose {
        case Poll(_) => PollAnswered(k, at, reply, valid);
        case Confirm(_) => ConfirmAnswered(k, at, reply, valid);
        case Reload(_) => ReloadAnswered(k, at, reply, valid);
        case Post(_) =>
          if reply.Accepted? {
            MutationAccepted(k, at.value, cleared);
          } else {
            MutationRefused(k, at, reply.code, cleared);
          }
      }
    }

    /** What the user asks for, one case for each entry of the console's interface. */
    method Dispatch(action: Action)
      modifies this
      ensures View() == DoAct(old(View()), action)
      ensures run == old(run)
    {
      hide DoUpdateSettings, DoRunNow, DoUpdateAddress, DoSendOffer, SendSettings, SendRun, Begin, CallsOf;
      match action {
        case UpdateSettings(folderId, settings, newId, stored, cleared) =>
          RequestLinkSettings(folderId, settings, newId, stored, cleared);
        case RetrySettings(stored, cleared) => RetryPendingLinkSettings(stored, cleared);
        case DiscardSettings(cleared) => DiscardPendingLinkSettings(cleared);
        case RunNow(folderId, newId, stored) => StartRun(folderId, newId, stored);
        case RetryRun(stored) => RetryPendingRun(stored);
        case DiscardRun(cleared) => DiscardPendingRun(cleared);
        case UpdateAddress(peerId, candidate) => RefreshPeerAddress(peerId, candidate);
        case RetryAddress(peerId) => RetryPeerAddressRefresh(peerId);
        case CancelAddress(peerId) => CancelPeerAddressRefresh(peerId);
        case SendOffer(offer, stored) => ShareFolder(offer, stored);
        case DiscardOffer(cleared) => DiscardPendingOffer(cleared);
        case MutatePlainly(body) => Mutate(Plain(body));
      }
    }

    // ------------------------------------------------------------ entry points

    /** A change of access forgets what is shown; nothing requested before can be shown any more, and no receipt is lost. */
    method SetAccess(device: Option<Id>, unlock: bool)
      requires Valid()
      modifies this
      ensures Valid() && run == Then(old(run), Event.SetAccess(device, unlock), View())
      ensures deviceId == device && (unlocked <==> unlock && device.Some?)
      ensures currentStatus.None? && pendingAddressRefresh.None? && AllSuperseded(View(), nextCall)
      ensures SameReceipts(old(View()), View())
    {
      hide CallsOf, Inv, AllSuperseded;
      ghost var s := View();
      ChangeAccess(device, unlock);
      Record(Event.SetAccess(device, unlock));
      StepSupersedes(s, Event.SetAccess(device, unlock), View());
    }

    /** Without polling no status read is waited for. */
    method SetPollingEnabled(enabled: bool)
      requires Valid()
      modifies this
      ensures Valid() && run == Then(old(run), SetPolling(enabled), View())
      ensures pollingEnabled == enabled && currentStatus == old(currentStatus) && SameReceipts(old(View()), View())
      ensures !enabled ==> forall id :: id in View().calls && Read(View().calls[id]) ==> Superseded(View(), View().calls[id])
    {
      hide CallsOf, Inv, Superseded;
      ghost var s := View();
      ChangePolling(enabled);
      Record(SetPolling(enabled));
      StepSupersedes(s, SetPolling(enabled), View());
    }

    /** A refresh that is made is the only call whose answer the console then waits for. */
    method Refresh()
      requires Valid()
      modifies this
      ensures Valid() && run == Then(old(run), Event.Refresh, View())
      ensures if old(unlocked && deviceId.Some? && pollingEnabled && !mutationLocked) then
                && old(nextCall) in View().calls && Awaited(View(), View().calls[old(nextCall)])
                && AllSuperseded(View(), old(nextCall)) && nextCall == old(nextCall) + 1
              else View() == old(View())
    {
      hide CallsOf, Inv, AllSuperseded;
      ghost var s := View();
      ReadStatus();
      Record(Event.Refresh);
      StepSupersedes(s, Event.Refresh, View());
    }

    /**
      One action of the user. What it sends is saved, is the one mutation in progress, and
      makes every earlier read obsolete. Receipts, offers and address changes are kept or
      settled for a reason of their own.
     */
    method Perform(action: Action)
      requires Valid()
      modifies this
      ensures Valid() && run == Then(old(run), Act(action), View())
      ensures ActSummary(old(View()), action, View()) && Exactly(old(View()), action, View())
      ensures AddressAfterAct(old(View()), action, View()) && OffersAfterAct(old(View()), action, View())
      ensures Sent(old(View()), View()).Some? ==> AllSuperseded(View(), old(nextCall))
    {
      hide CallsOf, Inv, DoAct, AllSuperseded, AddressAfterAct, OffersAfterAct, SendsRetained, Exactly;
      ghost var s := View();
      Dispatch(action);
      Record(Act(action));
      NextCallIsNew(s);
      ActStep(s, action);
      ActionSends(s, action);
      ActRequests(s, action);
      StepSupersedes(s, Act(action), View());
    }

    /** The server acts on a call. */
    ghost method Serve(id: nat)
      requires Valid() && id in waiting && id !in served
      modifies this
      ensures Valid() && run == Then(old(run), Event.Serve(id), View())
    {
      ServedCalls(waiting, served, id, clock + 1);
      hide CallsOf, Inv;
      ghost var s := View();
      clock := clock + 1;
      served := served[id := clock];
      Record(Event.Serve(id));
    }

    /**
      One answer. It shows a status only if that is no older than any acknowledged mutation
      and any status shown before, and clears a receipt only if it settles that request.
     */
    method Deliver(id: nat, reply: Reply, cleared: bool)
      requires Valid() && Deliverable(View(), id, reply)
      modifies this
      ensures Valid() && run == Then(old(run), Answer(id, reply, cleared), View())
      ensures ReceiptsAfterAnswer(old(View()), old(View()).calls[id], reply, cleared, View())
      ensures AddressAfterAnswer(old(View()), old(View()).calls[id], reply, View())
      ensures if old(Shows(View(), View().calls[id], reply)) then
                && currentStatus == Some(reply.status)
                && old(ackedAt) <= shownAt && old(shownAt) <= shownAt
              else currentStatus == old(currentStatus) || currentStatus.None?
    {
      hide CallsOf, Inv, DoAnswer, ValidFor, ReceiptsAfterAnswer, AddressAfterAnswer;
      ghost var s, e := View(), Answer(id, reply, cleared);
      Answered(id, reply, cleared);
      Record(e);
      AnswerReceipts(s, id, reply, cleared);
      AnswerRequests(s, id, reply, cleared);
      StepShown(s, e, View());
      StepCounters(s, e, View());
      if ShowsAt(s, e) {
        ShownIsNewest(s, e);
      }
    }

    // ---------------------------------------------------- what the object promises

    predicate Changing(id: nat)
      requires id in waiting
      reads this
    {
      waiting[id].purpose.Post? || waiting[id].purpose.Confirm?
    }

    /** The lock is held exactly while one mutation is in progress. */
    lemma LockMeansOneMutation()
      requires Valid()
      ensures mutationLocked <==> exists id :: id in waiting && Changing(id)
      ensures forall a, b :: a in waiting && b in waiting && Changing(a) && Changing(b) ==> a == b
    {
      hide IsStep;
      OneMutationAtATime(run, |run.states| - 1);
      assert forall id :: id in waiting ==> id in View().calls && (Changing(id) <==> InProgress(View().calls[id]));
    }

    /** While a settings or run request is outstanding, storage holds its exact body. */
    lemma OutstandingIsSaved(id: nat)
      requires Valid() && id in waiting
      ensures waiting[id].purpose.Post? && waiting[id].purpose.mutation.ChangeSettings? ==>
                waiting[id].device in settingsReceipts
                && settingsReceipts[waiting[id].device] == waiting[id].purpose.mutation.settings
      ensures waiting[id].purpose.Post? && waiting[id].purpose.mutation.RequestRun? ==>
                waiting[id].device in runReceipts && runReceipts[waiting[id].device] == waiting[id].purpose.mutation.run
    {
      hide IsStep;
      if waiting[id].purpose.Post? {
        OutstandingRequestIsRetained(run, |run.states| - 1, id);
      }
    }

    /** What is shown is valid for the present device. */
    lemma ShownIsForThisDevice()
      requires Valid() && currentStatus.Some?
      ensures deviceId.Some? && ValidFor(currentStatus.value, deviceId)
    {
      hide IsStep, ValidFor, CallsOf;
      ShownBelongsToAccess(run, |run.states| - 1);
    }
  }
}
