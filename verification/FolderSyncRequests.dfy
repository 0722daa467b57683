/** What becomes of address changes, offers and new runs: when they are saved, sent and forgotten. */
module FolderSyncRequests {
  import opened Basics
  import opened FolderStatus
  import opened FolderSync
  import opened FolderSyncInvariant
  import opened FolderSyncSteps
  import opened FolderSyncRuns
  import opened FolderSyncSending

  // --------------------------------------------------------------- frames

  ghost predicate SameRequests(s: State, t: State) {
    t.pendingAddress == s.pendingAddress && t.offerReceipts == s.offerReceipts
  }

  lemma SendSettingsRequests(s: State, body: SettingsBody, stored: bool, cleared: bool)
    requires CanMutate(s)
    ensures SameRequests(s, SendSettings(s, body, stored, cleared))
  {
    hide Observe;
  }

  lemma UpdateSettingsRequests(s: State, folderId: Id, settings: Settings, newId: Id, stored: bool, cleared: bool)
    ensures SameRequests(s, DoUpdateSettings(s, folderId, settings, newId, stored, cleared))
  {
    hide SendSettings;
    var link := CurrentLink(s, folderId);
    if CanMutate(s) && link.Some? {
      var state := link.value.linkSettings.value;
      if s.deviceId.value in s.settingsReceipts {
        SendSettingsRequests(s, s.settingsReceipts[s.deviceId.value], stored, cleared);
      } else if state.pendingChange.Some? {
        SendSettingsRequests(s, FromRequest(state.pendingChange.value), stored, cleared);
      } else {
        SendSettingsRequests(s, SettingsBody(folderId, newId, state.revision, settings), stored, cleared);
      }
    }
  }

  lemma SendRunRequests(s: State, body: RunBody, stored: bool)
    requires CanMutate(s)
    ensures SameRequests(s, SendRun(s, body, stored))
  {
  }

  lemma RunNowRequests(s: State, folderId: Id, newId: Id, stored: bool)
    ensures SameRequests(s, DoRunNow(s, folderId, newId, stored))
  {
    hide Link;
  }

  // ------------------------------------------------ receipts and their answers

  ghost predicate SameReceipts(s: State, t: State) {
    t.settingsReceipts == s.settingsReceipts && t.runReceipts == s.runReceipts && t.offerReceipts == s.offerReceipts
  }

  /** The server acknowledged the call while the console still showed the device that made it. */
  ghost predicate AcknowledgedHere(s: State, call: Call, reply: Reply) {
    reply.Accepted? && s.unlocked && s.deviceId == Some(call.device)
  }

  ghost predicate ClearsSettings(s: State, call: Call, reply: Reply) {
    call.purpose.Post? && call.purpose.mutation.ChangeSettings? && AcknowledgedHere(s, call, reply)
  }

  ghost predicate ClearsRun(s: State, call: Call, reply: Reply) {
    && call.purpose.Post? && call.purpose.mutation.RequestRun?
    && (AcknowledgedHere(s, call, reply) || reply == Refused(RunConflict) || reply == Refused(RunPending))
  }

  ghost predicate ClearsOffer(s: State, call: Call, reply: Reply) {
    call.purpose.Post? && call.purpose.mutation.Offer? && AcknowledgedHere(s, call, reply)
  }

  /** Exactly which receipts an answer clears. */
  ghost predicate ReceiptsAfterAnswer(s: State, call: Call, reply: Reply, cleared: bool, t: State) {
    && t.settingsReceipts == (if cleared && ClearsSettings(s, call, reply) then s.settingsReceipts - {call.device} else s.settingsReceipts)
    && t.runReceipts == (if cleared && ClearsRun(s, call, reply) then s.runReceipts - {call.device} else s.runReceipts)
    && t.offerReceipts == (if cleared && ClearsOffer(s, call, reply) then s.offerReceipts - {call.device} else s.offerReceipts)
  }

  lemma DropRunKeeps(s: State, device: Id, cleared: bool)
    ensures var t := DropRun(s, device, cleared);
            && SameRequests(s, t) && t.settingsReceipts == s.settingsReceipts
            && t.runReceipts == if cleared then s.runReceipts - {device} else s.runReceipts
  {
  }

  lemma DropSettingsKeeps(s: State, device: Id, cleared: bool)
    ensures var t := DropSettings(s, device, cleared);
            && SameRequests(s, t) && t.runReceipts == s.runReceipts
            && t.settingsReceipts == if cleared then s.settingsReceipts - {device} else s.settingsReceipts
  {
  }

  lemma AcceptedReceipts(s: State, call: Call, cleared: bool)
    requires call.purpose.Post? && call.served.Some?
    ensures AnswerAccepted(s, call, cleared).pendingAddress == s.pendingAddress
    ensures ReceiptsAfterAnswer(s, call, Accepted, cleared, AnswerAccepted(s, call, cleared))
  {
    hide Max, DropSettings, DropRun;
    var released := s.(ackedAt := Max(s.ackedAt, call.served.value), mutationLocked := false);
    DropSettingsKeeps(released, call.device, cleared);
    DropRunKeeps(released, call.device, cleared);
  }

  lemma ConflictRequests(s: State, call: Call, request: AddressRequest)
    ensures var t := AddressConflict(s, call, request);
            && SameReceipts(s, t)
            && t.pendingAddress == if s.accessEpoch == call.epoch && s.pendingAddress == Some(request) then None else s.pendingAddress
  {
  }

  lemma RefusedReceipts(s: State, call: Call, code: Code, cleared: bool)
    requires call.purpose.Post?
    ensures ReceiptsAfterAnswer(s, call, Refused(code), cleared, AnswerRefused(s, call, code, cleared))
    ensures AnswerRefused(s, call, code, cleared).pendingAddress ==
              if code == AddressChanged && s.accessEpoch == call.epoch && s.pendingAddress.Some?
                 && call.purpose.mutation == MoveAddress(s.pendingAddress.value) then None
              else s.pendingAddress
  {
    hide AddressConflict, DropRun;
    var released := s.(mutationLocked := false);
    DropRunKeeps(released, call.device, cleared);
    if call.purpose.mutation.MoveAddress? {
      ConflictRequests(released, call, call.purpose.mutation.address);
    }
  }

  lemma ReadReceipts(s: State, call: Call, reply: Reply, valid: bool)
    requires reply.Reported? ==> call.served.Some?
    ensures call.purpose.Poll? ==> SameReceipts(s, AnswerPoll(s, call, reply, valid))
    ensures call.purpose.Reload? ==> SameReceipts(s, AnswerReload(s, call, reply, valid))
    ensures call.purpose.Confirm? ==> SameReceipts(s, AnswerConfirm(s, call, reply, valid))
  {
    hide FindPeer, AddressConflict;
    if call.purpose.Confirm? {
      ConflictRequests(s.(mutationLocked := false), call, call.purpose.address);
    }
  }

  lemma AnswerReceipts(s: State, id: nat, reply: Reply, cleared: bool)
    requires Deliverable(s, id, reply)
    ensures ReceiptsAfterAnswer(s, s.calls[id], reply, cleared, DoAnswer(s, id, reply, cleared))
  {
    hide ValidFor, AnswerPoll, AnswerAccepted, AnswerRefused, AnswerConfirm, AnswerReload;
    var rest, call := Without(s, id), s.calls[id];
    if !call.purpose.Post? {
      ReadReceipts(rest, call, reply, reply.Reported? && ValidFor(reply.status, s.deviceId));
    } else if reply.Accepted? {
      AcceptedReceipts(rest, call, cleared);
    } else {
      RefusedReceipts(rest, call, reply.code, cleared);
    }
  }

  /**
    An answer clears the receipt of exactly the request it answers: on an acknowledgement
    that arrives under the same device, or, for a run, on a conflict. A late acknowledgement
    leaves the receipt for a retry.
   */
  lemma AnswerClearsItsReceipt(r: Run, i: nat)
    requires IsRun(r) && i < |r.events| && r.events[i].Answer? && r.events[i].call in r.states[i].calls
    ensures ReceiptsAfterAnswer(r.states[i], r.states[i].calls[r.events[i].call], r.events[i].reply, r.events[i].cleared, r.states[i + 1])
  {
    hide DoAnswer, ReceiptsAfterAnswer;
    assert IsStep(r.states[i], r.events[i], r.states[i + 1]);
    AnswerReceipts(r.states[i], r.events[i].call, r.events[i].reply, r.events[i].cleared);
  }

  // ------------------------------------------------------- address changes

  /** A new address change, away from the address shown and sent at once. */
  ghost predicate StartsAddress(s: State, request: AddressRequest, t: State) {
    && s.pendingAddress.None?
    && Sent(s, t) == Some(MoveAddress(request))
    && ShownAddress(s, request.peerId) == Some(request.expectedAddress)
    && request.candidateAddress != request.expectedAddress
    && request.serial == s.nextCall
  }

  ghost predicate CancelsAddress(action: Action, request: AddressRequest) {
    action.CancelAddress? && action.peerId == request.peerId
  }

  /** The answers that end the saved address change `request`. */
  ghost predicate AnswerEndsAddress(s: State, call: Call, reply: Reply, request: AddressRequest) {
    match call.purpose
    case Poll(_) => Shows(s, call, reply) && FindPeer(reply.status.peers, request.peerId).None?
    case Confirm(confirmed) =>
      && confirmed == request
      && (AddressRefused(s, call, reply)
          || (Shows(s, call, reply)
              && FindPeer(reply.status.peers, request.peerId).Some?
              && FindPeer(reply.status.peers, request.peerId).value.address == Some(request.candidateAddress)))
    case Post(m) => m == MoveAddress(request) && AddressRefused(s, call, reply)
    case Reload(_) => false
  }

  ghost predicate AddressRefused(s: State, call: Call, reply: Reply) {
    reply == Refused(AddressChanged) && s.accessEpoch == call.epoch
  }

  /** The steps that end the saved address change. */
  ghost predicate EndsAddress(s: State, e: Event, request: AddressRequest) {
    match e
    case SetAccess(_, _) => true
    case Act(action) => CancelsAddress(action, request)
    case Answer(id, reply, _) => id in s.calls && AnswerEndsAddress(s, s.calls[id], reply, request)
    case _ => false
  }

  ghost predicate AddressAfterAct(s: State, action: Action, t: State) {
    if s.pendingAddress.Some? then
      t.pendingAddress == if CancelsAddress(action, s.pendingAddress.value) then None else s.pendingAddress
    else
      || t.pendingAddress.None?
      || (&& action.UpdateAddress? && StartsAddress(s, t.pendingAddress.value, t)
          && t.pendingAddress.value.peerId == action.peerId && t.pendingAddress.value.candidateAddress == action.candidate)
  }

  ghost predicate OffersAfterAct(s: State, action: Action, t: State) {
    match action
    case SendOffer(offer, _) =>
      || t.offerReceipts == s.offerReceipts
      || (s.deviceId.Some? && s.deviceId.value !in s.offerReceipts
          && t.offerReceipts == s.offerReceipts[s.deviceId.value := offer])
    case DiscardOffer(cleared) =>
      t.offerReceipts ==
        if cleared && s.unlocked && s.deviceId.Some? then s.offerReceipts - {s.deviceId.value} else s.offerReceipts
    case _ => t.offerReceipts == s.offerReceipts
  }

  lemma UpdateAddressRequests(s: State, peerId: Id, candidate: string)
    ensures AddressAfterAct(s, UpdateAddress(peerId, candidate), DoUpdateAddress(s, peerId, candidate))
    ensures DoUpdateAddress(s, peerId, candidate).offerReceipts == s.offerReceipts
  {
    hide FindPeer;
  }

  lemma SendOfferRequests(s: State, offer: OfferBody, stored: bool)
    ensures DoSendOffer(s, offer, stored).pendingAddress == s.pendingAddress
    ensures OffersAfterAct(s, SendOffer(offer, stored), DoSendOffer(s, offer, stored))
  {
    hide Begin;
    BeginStep(s, Offer(offer));
    if s.deviceId.Some? {
      BeginStep(s.(offerReceipts := s.offerReceipts[s.deviceId.value := offer]), Offer(offer));
    }
  }

  /** The actions that concern neither an address change nor an offer. */
  ghost predicate Unrelated(action: Action) {
    || action.UpdateSettings? || action.RetrySettings? || action.DiscardSettings?
    || action.RunNow? || action.RetryRun? || action.DiscardRun? || action.MutatePlainly?
  }

  lemma UnrelatedRequests(s: State, action: Action)
    requires Unrelated(action)
    ensures SameRequests(s, DoAct(s, action))
  {
    hide DoUpdateSettings, SendSettings, DoRunNow, SendRun, Begin;
    match action {
      case UpdateSettings(f, settings, newId, stored, cleared) => UpdateSettingsRequests(s, f, settings, newId, stored, cleared);
      case RetrySettings(stored, cleared) =>
        if CanMutate(s) && s.deviceId.value in s.settingsReceipts {
          SendSettingsRequests(s, s.settingsReceipts[s.deviceId.value], stored, cleared);
        }
      case RunNow(f, newId, stored) => RunNowRequests(s, f, newId, stored);
      case RetryRun(stored) =>
        if CanMutate(s) && s.deviceId.value in s.runReceipts {
          SendRunRequests(s, s.runReceipts[s.deviceId.value], stored);
        }
      case MutatePlainly(body) => BeginStep(s, Plain(body));
      case _ =>
    }
  }

  lemma ActRequests(s: State, action: Action)
    ensures AddressAfterAct(s, action, DoAct(s, action))
    ensures OffersAfterAct(s, action, DoAct(s, action))
  {
    if Unrelated(action) {
      hide DoAct;
      UnrelatedRequests(s, action);
    } else {
      hide DoUpdateAddress, DoSendOffer, StartsAddress, Begin;
      match action {
        case UpdateAddress(peerId, candidate) => UpdateAddressRequests(s, peerId, candidate);
        case SendOffer(offer, stored) => SendOfferRequests(s, offer, stored);
        case RetryAddress(_) =>
          if s.pendingAddress.Some? {
            BeginStep(s, MoveAddress(s.pendingAddress.value));
          }
        case CancelAddress(_) =>
        case DiscardOffer(_) =>
      }
    }
  }

  ghost predicate AddressAfterAnswer(s: State, call: Call, reply: Reply, t: State) {
    t.pendingAddress ==
      if s.pendingAddress.Some? && AnswerEndsAddress(s, call, reply, s.pendingAddress.value) then None else s.pendingAddress
  }

  lemma PollRequests(s: State, id: nat, reply: Reply, valid: bool)
    requires Deliverable(s, id, reply) && s.calls[id].purpose.Poll?
    requires valid <==> reply.Reported? && ValidFor(reply.status, s.deviceId)
    ensures AddressAfterAnswer(s, s.calls[id], reply, AnswerPoll(Without(s, id), s.calls[id], reply, valid))
  {
    hide ValidFor, FindPeer;
  }

  lemma ConfirmRequests(s: State, id: nat, reply: Reply, valid: bool)
    requires Deliverable(s, id, reply) && s.calls[id].purpose.Confirm?
    requires valid <==> reply.Reported? && ValidFor(reply.status, s.deviceId)
    ensures AddressAfterAnswer(s, s.calls[id], reply, AnswerConfirm(Without(s, id), s.calls[id], reply, valid))
  {
    hide ValidFor, FindPeer, AddressConflict;
    ConflictRequests(Released(s, id), s.calls[id], s.calls[id].purpose.address);
  }

  lemma ReloadRequests(s: State, id: nat, reply: Reply, valid: bool)
    requires Deliverable(s, id, reply) && s.calls[id].purpose.Reload?
    ensures AddressAfterAnswer(s, s.calls[id], reply, AnswerReload(Without(s, id), s.calls[id], reply, valid))
  {
  }

  lemma AcceptedRequests(s: State, id: nat, cleared: bool)
    requires Deliverable(s, id, Accepted)
    ensures AddressAfterAnswer(s, s.calls[id], Accepted, AnswerAccepted(Without(s, id), s.calls[id], cleared))
  {
    hide AnswerAccepted;
    AcceptedReceipts(Without(s, id), s.calls[id], cleared);
  }

  lemma RefusedRequests(s: State, id: nat, code: Code, cleared: bool)
    requires id in s.calls && s.calls[id].purpose.Post?
    ensures AddressAfterAnswer(s, s.calls[id], Refused(code), AnswerRefused(Without(s, id), s.calls[id], code, cleared))
  {
    hide AnswerRefused;
    RefusedReceipts(Without(s, id), s.calls[id], code, cleared);
  }

  lemma AnswerRequests(s: State, id: nat, reply: Reply, cleared: bool)
    requires Deliverable(s, id, reply)
    ensures AddressAfterAnswer(s, s.calls[id], reply, DoAnswer(s, id, reply, cleared))
  {
    hide AddressAfterAnswer, ValidFor, AnswerPoll, AnswerAccepted, AnswerRefused, AnswerConfirm, AnswerReload;
    var valid := reply.Reported? && ValidFor(reply.status, s.deviceId);
    match s.calls[id].purpose {
      case Poll(_) => PollRequests(s, id, reply, valid);
      case Confirm(_) => ConfirmRequests(s, id, reply, valid);
      case Reload(_) => ReloadRequests(s, id, reply, valid);
      case Post(_) =>
        if reply.Accepted? {
          AcceptedRequests(s, id, cleared);
        } else {
          RefusedRequests(s, id, reply.code, cleared);
        }
    }
  }

  /**
    A saved address change stays as it is until access changes, the user cancels it, a
    shown status no longer lists the peer, the address is confirmed, or the server
    refuses the old address; and each of these does end it.
   */
  lemma AddressIsKeptUntilEnded(r: Run, i: nat, request: AddressRequest)
    requires IsRun(r) && i < |r.events| && r.states[i].pendingAddress == Some(request)
    ensures r.states[i + 1].pendingAddress == if EndsAddress(r.states[i], r.events[i], request) then None else Some(request)
  {
    hide DoAct, DoAnswer, AnswerEndsAddress;
    var s, e := r.states[i], r.events[i];
    assert IsStep(s, e, r.states[i + 1]);
    match e {
      case Act(action) => ActRequests(s, action);
      case Answer(id, reply, cleared) => AnswerRequests(s, id, reply, cleared);
      case _ =>
    }
  }

  /** An address request is sent only as saved, and a new one only against the address shown. */
  lemma SentAddressIsSaved(r: Run, i: nat, request: AddressRequest)
    requires IsRun(r) && i < |r.events| && Sent(r.states[i], r.states[i + 1]) == Some(MoveAddress(request))
    ensures r.states[i + 1].pendingAddress == Some(request)
    ensures r.states[i].pendingAddress == Some(request) || StartsAddress(r.states[i], request, r.states[i + 1])
  {
    hide Inv, DoAct, DoAnswer;
    var s, e, t := r.states[i], r.events[i], r.states[i + 1];
    assert IsStep(s, e, t);
    RunInv(r, i);
    SentIsRetained(s, e, t);
    ActRequests(s, e.action);
  }

  lemma {:induction false} AddressIsConstant(r: Run, i: nat, j: nat)
    requires IsRun(r) && i <= j < |r.states|
    requires forall k :: i <= k <= j ==> r.states[k].pendingAddress.Some?
    ensures r.states[j].pendingAddress == r.states[i].pendingAddress
    decreases j
  {
    hide IsStep, EndsAddress;
    if i < j {
      AddressIsConstant(r, i, j - 1);
      AddressIsKeptUntilEnded(r, j - 1, r.states[i].pendingAddress.value);
    }
  }

  /** While an address change stays saved, every request made for it has the same body. */
  lemma AddressRetriesAreIdentical(r: Run, i: nat, j: nat, first: AddressRequest, second: AddressRequest)
    requires IsRun(r) && i < j < |r.events|
    requires Sent(r.states[i], r.states[i + 1]) == Some(MoveAddress(first))
    requires Sent(r.states[j], r.states[j + 1]) == Some(MoveAddress(second))
    requires forall k :: i < k <= j ==> r.states[k].pendingAddress.Some?
    ensures first == second
  {
    hide IsStep, Sent, StartsAddress, EndsAddress;
    SentAddressIsSaved(r, i, first);
    SentAddressIsSaved(r, j, second);
    AddressIsConstant(r, i + 1, j + 1);
  }

  /**
    An accepted address change is followed, under the same access, by a read that confirms it, and
    the lock is kept until then.
   */
  lemma AcceptedAddressIsConfirmed(r: Run, i: nat, request: AddressRequest)
    requires IsRun(r) && i < |r.events| && r.events[i].Answer? && r.events[i].reply.Accepted?
    requires r.events[i].call in r.states[i].calls
    requires r.states[i].calls[r.events[i].call].purpose == Post(MoveAddress(request))
    requires AcknowledgedHere(r.states[i], r.states[i].calls[r.events[i].call], Accepted)
    requires r.states[i].accessEpoch == r.states[i].calls[r.events[i].call].epoch
    ensures var s, t := r.states[i], r.states[i + 1];
            && t.mutationLocked && t.pendingAddress == s.pendingAddress && t.nextCall == s.nextCall + 1
            && s.nextCall in t.calls
            && t.calls[s.nextCall] == Call(Confirm(request), s.calls[r.events[i].call].device, s.accessEpoch, None)
  {
    hide Max, Inv;
    var s, e, t := r.states[i], r.events[i], r.states[i + 1];
    assert IsStep(s, e, t);
    RunInv(r, i);
    PostHoldsLock(s, e.call);
  }

  lemma PostHoldsLock(s: State, id: nat)
    requires Inv(s) && id in s.calls && s.calls[id].purpose.Post?
    ensures s.mutationLocked
  {
    hide CallsOk, ReadsOk, ClocksOk, ShownOk, ReceiptsOk;
  }

  /** The server refused the address change that call `id` is part of, under the present access. */
  ghost predicate RefusesAddress(s: State, e: Event, id: nat) {
    && e.Answer? && e.call == id && id in s.calls && AddressRefused(s, s.calls[id], e.reply)
    && (s.calls[id].purpose.Confirm? || (s.calls[id].purpose.Post? && s.calls[id].purpose.mutation.MoveAddress?))
  }

  ghost predicate Reloading(s: State, device: Id, t: State) {
    && t.current.None? && !t.mutationLocked
    && s.nextCall in t.calls
    && t.calls[s.nextCall] == Call(Reload(t.generation), device, s.accessEpoch, None)
  }

  lemma ConflictReloads(s: State, call: Call, request: AddressRequest)
    requires s.accessEpoch == call.epoch && !s.mutationLocked
    ensures Reloading(s, call.device, AddressConflict(s, call, request))
  {
  }

  lemma RefusalIsConflict(s: State, e: Event, t: State)
    requires IsStep(s, e, t) && e.Answer? && RefusesAddress(s, e, e.call)
    ensures exists request :: t == AddressConflict(Released(s, e.call), s.calls[e.call], request)
  {
    hide ValidFor, FindPeer, AddressConflict, AnswerPoll, AnswerReload, AnswerAccepted;
    var call := s.calls[e.call];
    var request := if call.purpose.Post? then call.purpose.mutation.address else call.purpose.address;
    assert t == AddressConflict(Released(s, e.call), call, request);
  }

  lemma RefusalStartsReload(s: State, e: Event, t: State)
    requires IsStep(s, e, t) && e.Answer? && RefusesAddress(s, e, e.call)
    ensures Reloading(s, s.calls[e.call].device, t) && AccessKept(s, t)
  {
    hide AddressConflict, IsStep;
    RefusalIsConflict(s, e, t);
    var request :| t == AddressConflict(Released(s, e.call), s.calls[e.call], request);
    ConflictReloads(Released(s, e.call), s.calls[e.call], request);
    AddressConflictAccess(Released(s, e.call), s.calls[e.call], request);
  }

  /**
    After a refusal the old status is gone and the lock is free. The reload that follows
    is shown if and only if it is valid, the console was unlocked, and nothing has
    disturbed it meanwhile.
   */
  lemma RefusedAddressReloads(r: Run, k: nat, i: nat)
    requires IsRun(r) && k < i < |r.events| && r.events[k].Answer? && RefusesAddress(r.states[k], r.events[k], r.events[k].call)
    requires r.events[i].Answer? && r.events[i].reply.Reported?
    requires r.events[i].call == r.states[k].nextCall && r.events[i].call in r.states[i].calls
    ensures r.states[k + 1].current.None? && !r.states[k + 1].mutationLocked
    ensures ShowsAt(r.states[i], r.events[i]) <==>
              && r.states[k].unlocked && ValidFor(r.events[i].reply.status, r.states[i].deviceId)
              && Undisturbed(r, k + 1, i)
  {
    hide Inv, Next, Enabled, ValidFor, Disturbs, RefusesAddress;
    var s, t, id := r.states[k], r.states[k + 1], r.events[i].call;
    assert IsStep(s, r.events[k], t);
    RefusalStartsReload(s, r.events[k], t);
    RunInv(r, k + 1);
    DeviceOfEpoch(t, id);
    if s.unlocked {
      ReadIsShownIffUndisturbed(r, k + 1, i);
    } else if ShowsAt(r.states[i], r.events[i]) {
      CallIsNumbered(t, id);
      OldCallsPersist(r, k + 1, i, id);
      UndisturbedIfSameGeneration(r, k + 1, i);
      UndisturbedKeeps(r, k + 1, i);
    }
  }

  // ------------------------------------------------------------------- runs

  /** A run without a saved receipt is requested only if the shown status allows it. */
  lemma NewRunIsAllowed(r: Run, i: nat, body: RunBody)
    requires IsRun(r) && i < |r.events| && SendsRun(r.states[i], r.states[i + 1], body)
    ensures var s := r.states[i];
            && s.deviceId.Some?
            && if s.deviceId.value in s.runReceipts then s.runReceipts[s.deviceId.value] == body else FreshRun(s, body)
  {
    hide Inv, DoAct, DoAnswer, FreshRun, Next, Enabled;
    var s, e, t := r.states[i], r.events[i], r.states[i + 1];
    assert IsStep(s, e, t);
    RunInv(r, i);
    SentIsRetained(s, e, t);
    ReceiptsAreKept(s, e, t, s.deviceId.value);
  }

  // ----------------------------------------------------------------- offers

  ghost predicate OutstandingOffer(s: State, id: nat) {
    id in s.calls && s.calls[id].purpose.Post? && s.calls[id].purpose.mutation.Offer?
  }

  /** Every outstanding offer is still saved for its device. */
  ghost predicate OffersRetained(s: State) {
    forall id :: OutstandingOffer(s, id) ==> OfferSaved(s, s.calls[id])
  }

  ghost predicate OfferSaved(s: State, call: Call)
    requires call.purpose.Post? && call.purpose.mutation.Offer?
  {
    call.device in s.offerReceipts && s.offerReceipts[call.device] == call.purpose.mutation.offer
  }

  /** Clearing the saved offer while it is still being sent, which the console does not prevent. */
  ghost predicate DiscardsOutstanding(s: State, e: Event) {
    && e == Act(DiscardOffer(true)) && s.unlocked && s.deviceId.Some?
    && exists id :: OutstandingOffer(s, id) && s.calls[id].device == s.deviceId.value
  }

  lemma ActRetainsOffers(s: State, action: Action)
    requires s.nextCall !in s.calls && OffersRetained(s)
    ensures OffersRetained(DoAct(s, action)) <==> !DiscardsOutstanding(s, Act(action))
  {
    hide DoAct, Observe, FreshRun, AddressAfterAct;
    ActStep(s, action);
    ActRequests(s, action);
    var t := DoAct(s, action);
    forall id | OutstandingOffer(t, id) && !DiscardsOutstanding(s, Act(action))
      ensures OfferSaved(t, t.calls[id])
    {
      if id != s.nextCall || Quiet(s, t) {
        assert OutstandingOffer(s, id) && t.calls[id] == s.calls[id];
      }
    }
    if DiscardsOutstanding(s, Act(action)) {
      var id :| OutstandingOffer(s, id) && s.calls[id].device == s.deviceId.value;
      assert OutstandingOffer(t, id) && t.calls[id] == s.calls[id];
    }
  }

  lemma AnswerRetainsOffers(s: State, id: nat, reply: Reply, cleared: bool)
    requires Inv(s) && Deliverable(s, id, reply) && OffersRetained(s)
    ensures OffersRetained(DoAnswer(s, id, reply, cleared))
  {
    hide Inv, DoAnswer, Shows;
    AnswerStep(s, id, reply, cleared);
    AnswerReceipts(s, id, reply, cleared);
    var t := DoAnswer(s, id, reply, cleared);
    forall other | OutstandingOffer(t, other)
      ensures OfferSaved(t, t.calls[other])
    {
      assert OutstandingOffer(s, other) && t.calls[other] == s.calls[other] && other != id;
      if t.offerReceipts != s.offerReceipts {
        OneInProgress(s, id, other);
      }
    }
  }

  lemma OneInProgress(s: State, a: nat, b: nat)
    requires Inv(s) && a in s.calls && b in s.calls && InProgress(s.calls[a]) && InProgress(s.calls[b])
    ensures a == b
  {
    hide CallsOk, ReadsOk, ClocksOk, ShownOk, ReceiptsOk;
  }

  /** An offer stays saved for as long as it is being sent, exactly if it is not cleared meanwhile. */
  lemma OffersAreRetainedUnlessDiscarded(s: State, e: Event, t: State)
    requires Inv(s) && IsStep(s, e, t) && OffersRetained(s)
    ensures OffersRetained(t) <==> !DiscardsOutstanding(s, e)
  {
    hide Inv, DoAct, DoAnswer;
    match e {
      case Act(action) =>
        NextCallIsNew(s);
        ActRetainsOffers(s, action);
      case Answer(id, reply, cleared) => AnswerRetainsOffers(s, id, reply, cleared);
      case _ =>
        NextCallIsNew(s);
        forall id | OutstandingOffer(t, id)
          ensures OfferSaved(t, t.calls[id])
        {
          assert OutstandingOffer(s, id);
        }
    }
  }

  lemma {:induction false} RunRetainsOffers(r: Run, i: nat)
    requires IsRun(r) && i < |r.states|
    requires forall k :: 0 <= k < i ==> !DiscardsOutstanding(r.states[k], r.events[k])
    ensures OffersRetained(r.states[i])
  {
    hide Inv, Next, Enabled, DiscardsOutstanding, OffersRetained;
    if i == 0 {
      NoOffersYet();
    } else {
      RunRetainsOffers(r, i - 1);
      RunInv(r, i - 1);
      assert IsStep(r.states[i - 1], r.events[i - 1], r.states[i]);
      OffersAreRetainedUnlessDiscarded(r.states[i - 1], r.events[i - 1], r.states[i]);
    }
  }

  lemma NoOffersYet()
    ensures OffersRetained(INITIAL)
  {
  }

  /** The reasons for which a saved offer may disappear, all about that very offer. */
  ghost predicate SettlesOffer(s: State, e: Event, device: Id)
    requires device in s.offerReceipts
  {
    match e
    case Act(action) => action.DiscardOffer? && s.deviceId == Some(device)
    case Answer(id, reply, _) =>
      && id in s.calls && s.calls[id].device == device && AcknowledgedHere(s, s.calls[id], reply)
      && s.calls[id].purpose == Post(Offer(s.offerReceipts[device]))
    case _ => false
  }

  /** If no offer was cleared while being sent, a saved offer stays as it is until it is acknowledged or cleared. */
  lemma OfferIsKeptUntilSettled(r: Run, i: nat, device: Id)
    requires IsRun(r) && i < |r.events| && device in r.states[i].offerReceipts
    requires forall k :: 0 <= k < i ==> !DiscardsOutstanding(r.states[k], r.events[k])
    ensures var s, t := r.states[i], r.states[i + 1];
            || (device in t.offerReceipts && t.offerReceipts[device] == s.offerReceipts[device])
            || (device !in t.offerReceipts && SettlesOffer(s, r.events[i], device))
  {
    hide DoAct, DoAnswer, AddressAfterAct, DiscardsOutstanding;
    var s, e, t := r.states[i], r.events[i], r.states[i + 1];
    assert IsStep(s, e, t);
    RunRetainsOffers(r, i);
    match e {
      case Act(action) => ActRequests(s, action);
      case Answer(id, reply, cleared) =>
        AnswerReceipts(s, id, reply, cleared);
        assert OutstandingOffer(s, id) ==> OfferSaved(s, s.calls[id]);
      case _ =>
    }
  }

  /** The console of device 1 with its lock, its saved offers, its outstanding call and the clock of that call. */
  ghost function Console(locked: bool, offers: map<Id, OfferBody>, calls: Calls, at: nat): State {
    State(Some(1), true, false, locked, 1 + |calls|, 1, None, None, map[], map[], offers, calls, |calls|, at, 0, 0)
  }

  ghost function Sending(offer: OfferBody): Calls {
    map[0 := Call(Post(Offer(offer)), 1, 1, None)]
  }

  lemma SavesAndSends(offer: OfferBody)
    ensures IsStep(INITIAL, SetAccess(Some(1), true), Console(false, map[], map[], 0))
    ensures IsStep(Console(false, map[], map[], 0), Act(SendOffer(offer, true)), Console(true, map[1 := offer], Sending(offer), 0))
  {
  }

  lemma ClearsAndSaves(first: OfferBody, second: OfferBody)
    ensures var sending := Console(true, map[1 := first], Sending(first), 0);
            && IsStep(sending, Act(DiscardOffer(true)), Console(true, map[], Sending(first), 0))
            && DiscardsOutstanding(sending, Act(DiscardOffer(true)))
    ensures IsStep(Console(true, map[], Sending(first), 0), Act(SendOffer(second, true)), Console(true, map[1 := second], Sending(first), 0))
  {
    var sending := Console(true, map[1 := first], Sending(first), 0);
    assert sending.offerReceipts - {1} == map[];
    assert OutstandingOffer(sending, 0);
  }

  lemma AnswersTheFirst(first: OfferBody, second: OfferBody) returns (served: State, done: State)
    ensures IsStep(Console(true, map[1 := second], Sending(first), 0), Serve(0), served)
    ensures IsStep(served, Answer(0, Accepted, true), done)
    ensures served.nextCall == done.nextCall == 1 && served.calls.Keys == {0} && done.calls == map[] && done.offerReceipts == map[]
  {
    var saved := Console(true, map[1 := second], Sending(first), 0);
    served := DoServe(saved, 0);
    done := served.(offerReceipts := map[], calls := map[], mutationLocked := false, ackedAt := 1);
    assert served.offerReceipts - {1} == map[];
    assert served.calls - {0} == map[];
  }

  /**
    Otherwise an offer can be lost without ever being sent: clear an offer that is being
    sent, save another, and the answer to the first removes the second.
   */
  lemma ClearedOfferTakesTheNext(first: OfferBody, second: OfferBody) returns (r: Run)
    requires first != second
    ensures IsRun(r) && |r.events| == 6
    ensures DiscardsOutstanding(r.states[2], r.events[2])
    ensures r.states[4].offerReceipts == map[1 := second] && r.states[6].offerReceipts == map[]
    ensures forall k :: 0 <= k < 6 ==> Sent(r.states[k], r.states[k + 1]) != Some(Offer(second))
  {
    hide IsStep, DiscardsOutstanding;
    SavesAndSends(first);
    ClearsAndSaves(first, second);
    var served, done := AnswersTheFirst(first, second);
    var idle, sending := Console(false, map[], map[], 0), Console(true, map[1 := first], Sending(first), 0);
    var cleared, saved := Console(true, map[], Sending(first), 0), Console(true, map[1 := second], Sending(first), 0);
    r := Run([INITIAL, idle, sending, cleared, saved, served, done],
             [SetAccess(Some(1), true), Act(SendOffer(first, true)), Act(DiscardOffer(true)),
              Act(SendOffer(second, true)), Serve(0), Answer(0, Accepted, true)]);
  }
}
