/** What every reachable state of the folder-sync coordinator satisfies. */
module FolderSyncInvariant {
  import opened Basics
  import opened FolderStatus
  import opened FolderSync

  /** A call made while its mutation holds the lock. */
  predicate InProgress(call: Call) {
    call.purpose.Post? || call.purpose.Confirm?
  }

  /** A status read whose answer is tied to one generation. */
  predicate Read(call: Call) {
    call.purpose.Poll? || call.purpose.Reload?
  }

  predicate CurrentRead(generation: nat, call: Call) {
    Read(call) && call.purpose.generation == generation
  }

  type Calls = map<nat, Call>

  /** Calls are numbered in order of issue, and remember the access they were made under. */
  ghost predicate CallsOk(calls: Calls, nextCall: nat, epoch: nat, deviceId: Option<Id>) {
    && (forall id :: id in calls ==> id < nextCall)
    && (forall id :: id in calls ==> calls[id].epoch <= epoch)
    && (forall id :: id in calls && calls[id].epoch == epoch ==> deviceId == Some(calls[id].device))
  }

  /** The lock is held exactly while one mutation is in progress, and there is at most one. */
  ghost predicate LockOk(calls: Calls, locked: bool) {
    && (locked <==> exists id :: id in calls && InProgress(calls[id]))
    && (forall a, b :: a in calls && b in calls && InProgress(calls[a]) && InProgress(calls[b]) ==> a == b)
  }

  /** A read of the present generation was made in the present epoch, and no mutation has begun since. */
  ghost predicate ReadsOk(calls: Calls, generation: nat, locked: bool, epoch: nat) {
    && (forall id :: id in calls && Read(calls[id]) ==> calls[id].purpose.generation <= generation)
    && (forall id :: id in calls && CurrentRead(generation, calls[id]) ==> !locked && calls[id].epoch == epoch)
    && (forall a, b :: a in calls && b in calls && CurrentRead(generation, calls[a]) && CurrentRead(generation, calls[b]) ==> a == b)
  }

  /** A status that could still be shown is no older than any acknowledged mutation or shown status. */
  ghost predicate ClocksOk(calls: Calls, generation: nat, clock: nat, ackedAt: nat, shownAt: nat) {
    && ackedAt <= clock && shownAt <= clock
    && (forall id :: id in calls && calls[id].served.Some? ==> calls[id].served.value <= clock)
    && (forall id :: id in calls && calls[id].served.Some? && (CurrentRead(generation, calls[id]) || calls[id].purpose.Confirm?) ==>
          ackedAt <= calls[id].served.value && shownAt <= calls[id].served.value)
  }

  /** The shown status was requested in this access epoch, validated for this device, and is the last one shown. */
  ghost predicate ShownOk(current: Option<Shown>, epoch: nat, deviceId: Option<Id>, shownAt: nat) {
    current.Some? ==>
      && current.value.epoch == epoch
      && deviceId == Some(current.value.device)
      && current.value.asOf == shownAt
      && ValidFor(current.value.status, deviceId)
  }

  /** While a settings or run request is outstanding, its device's receipt is exactly its body. */
  ghost predicate ReceiptsOk(calls: Calls, settings: map<Id, SettingsBody>, runs: map<Id, RunBody>) {
    forall id :: id in calls && calls[id].purpose.Post? ==>
      match calls[id].purpose.mutation
      case ChangeSettings(body) => calls[id].device in settings && settings[calls[id].device] == body
      case RequestRun(body) => calls[id].device in runs && runs[calls[id].device] == body
      case _ => true
  }

  ghost predicate Inv(s: State) {
    && (s.unlocked ==> s.deviceId.Some?)
    && CallsOk(s.calls, s.nextCall, s.accessEpoch, s.deviceId)
    && LockOk(s.calls, s.mutationLocked)
    && ReadsOk(s.calls, s.generation, s.mutationLocked, s.accessEpoch)
    && ClocksOk(s.calls, s.generation, s.clock, s.ackedAt, s.shownAt)
    && ShownOk(s.current, s.accessEpoch, s.deviceId, s.shownAt)
    && ReceiptsOk(s.calls, s.settingsReceipts, s.runReceipts)
  }

  lemma InitialInv()
    ensures Inv(INITIAL)
  {
  }

  // -------------------------------------------------------------- small steps

  /** The receipt that must be in storage before a mutation is sent. */
  ghost predicate Retained(s: State, m: Mutation)
    requires s.deviceId.Some?
  {
    match m
    case ChangeSettings(body) => s.deviceId.value in s.settingsReceipts && s.settingsReceipts[s.deviceId.value] == body
    case RequestRun(body) => s.deviceId.value in s.runReceipts && s.runReceipts[s.deviceId.value] == body
    case _ => true
  }

  lemma BeginCalls(calls: Calls, n: nat, epoch: nat, deviceId: Option<Id>, call: Call)
    requires CallsOk(calls, n, epoch, deviceId)
    requires call.epoch == epoch && deviceId == Some(call.device)
    ensures CallsOk(calls[n := call], n + 1, epoch, deviceId)
  {
  }

  lemma BeginLock(calls: Calls, n: nat, call: Call)
    requires LockOk(calls, false) && InProgress(call)
    ensures LockOk(calls[n := call], true)
  {
    assert n in calls[n := call] && InProgress(calls[n := call][n]);
  }

  lemma BeginReads(calls: Calls, n: nat, generation: nat, epoch: nat, call: Call)
    requires ReadsOk(calls, generation, false, epoch) && InProgress(call)
    ensures ReadsOk(calls[n := call], generation + 1, true, epoch)
  {
  }

  lemma BeginClocks(calls: Calls, n: nat, generation: nat, epoch: nat, clock: nat, ackedAt: nat, shownAt: nat, call: Call)
    requires ClocksOk(calls, generation, clock, ackedAt, shownAt) && ReadsOk(calls, generation, false, epoch)
    requires InProgress(call) && call.served.None?
    ensures ClocksOk(calls[n := call], generation + 1, clock, ackedAt, shownAt)
  {
  }

  lemma BeginKeeps(s: State, m: Mutation)
    requires Inv(s)
    requires CanMutate(s) ==> Retained(s, m)
    ensures Inv(Begin(s, m))
  {
    hide CallsOk, LockOk, ReadsOk, ClocksOk, ShownOk;
    if CanMutate(s) {
      var call := Call(Post(m), s.deviceId.value, s.accessEpoch, None);
      BeginCalls(s.calls, s.nextCall, s.accessEpoch, s.deviceId, call);
      BeginLock(s.calls, s.nextCall, call);
      BeginReads(s.calls, s.nextCall, s.generation, s.accessEpoch, call);
      BeginClocks(s.calls, s.nextCall, s.generation, s.accessEpoch, s.clock, s.ackedAt, s.shownAt, call);
    }
  }

  lemma IdleHasNoPost(s: State)
    requires Inv(s) && !s.mutationLocked
    ensures forall id :: id in s.calls ==> !InProgress(s.calls[id])
  {
  }

  /** With the lock free, storage may change in any way. */
  lemma StorageKeeps(s: State, settings: map<Id, SettingsBody>, runs: map<Id, RunBody>)
    requires Inv(s) && !s.mutationLocked
    ensures Inv(s.(settingsReceipts := settings, runReceipts := runs))
  {
    hide CallsOk, ReadsOk, ClocksOk, ShownOk;
    IdleHasNoPost(s);
  }

  lemma OffersKeep(s: State, offers: map<Id, OfferBody>, pending: Option<AddressRequest>)
    requires Inv(s)
    ensures Inv(s.(offerReceipts := offers, pendingAddress := pending))
  {
    hide CallsOk, LockOk, ReadsOk, ClocksOk, ShownOk, ReceiptsOk;
  }

  lemma SendSettingsKeeps(s: State, body: SettingsBody, stored: bool, cleared: bool)
    requires Inv(s) && CanMutate(s)
    ensures Inv(SendSettings(s, body, stored, cleared))
  {
    hide Inv, Observe;
    if stored {
      var device := s.deviceId.value;
      var kept := s.(settingsReceipts := s.settingsReceipts[device := body]);
      StorageKeeps(s, kept.settingsReceipts, s.runReceipts);
      StorageKeeps(s, kept.settingsReceipts - {device}, s.runReceipts);
      BeginKeeps(kept, ChangeSettings(body));
    }
  }

  lemma SendRunKeeps(s: State, body: RunBody, stored: bool)
    requires Inv(s) && CanMutate(s)
    ensures Inv(SendRun(s, body, stored))
  {
    hide Inv;
    if stored {
      var kept := s.(runReceipts := s.runReceipts[s.deviceId.value := body]);
      StorageKeeps(s, s.settingsReceipts, kept.runReceipts);
      BeginKeeps(kept, RequestRun(body));
    }
  }

  lemma UpdateSettingsKeeps(s: State, folderId: Id, settings: Settings, newId: Id, stored: bool, cleared: bool)
    requires Inv(s)
    ensures Inv(DoUpdateSettings(s, folderId, settings, newId, stored, cleared))
  {
    hide Inv, SendSettings;
    var link := CurrentLink(s, folderId);
    if CanMutate(s) && link.Some? {
      var state := link.value.linkSettings.value;
      if s.deviceId.value in s.settingsReceipts {
        SendSettingsKeeps(s, s.settingsReceipts[s.deviceId.value], stored, cleared);
      } else if state.pendingChange.Some? {
        SendSettingsKeeps(s, FromRequest(state.pendingChange.value), stored, cleared);
      } else {
        SendSettingsKeeps(s, SettingsBody(folderId, newId, state.revision, settings), stored, cleared);
      }
    }
  }

  lemma RunNowKeeps(s: State, folderId: Id, newId: Id, stored: bool)
    requires Inv(s)
    ensures Inv(DoRunNow(s, folderId, newId, stored))
  {
    hide Inv, SendRun;
    var link := CurrentLink(s, folderId);
    if CanMutate(s) && link.Some? {
      if s.deviceId.value in s.runReceipts {
        SendRunKeeps(s, s.runReceipts[s.deviceId.value], stored);
      } else if link.value.linkRun.Some? {
        SendRunKeeps(s, RunBody(folderId, newId, link.value.linkRun.value.generation, link.value.linkSettings.value.revision), stored);
      }
    }
  }

  lemma UpdateAddressKeeps(s: State, peerId: Id, candidate: string)
    requires Inv(s)
    ensures Inv(DoUpdateAddress(s, peerId, candidate))
  {
    hide Inv, FindPeer;
    if s.pendingAddress.Some? {
      BeginKeeps(s, MoveAddress(s.pendingAddress.value));
    } else if s.current.Some? {
      var peer := FindPeer(s.current.value.status.peers, peerId);
      if peer.Some? && peer.value.address.Some? {
        var request := AddressRequest(s.nextCall, peerId, peer.value.address.value, candidate);
        OffersKeep(s, s.offerReceipts, Some(request));
        BeginKeeps(s.(pendingAddress := Some(request)), MoveAddress(request));
      }
    }
  }

  lemma SendOfferKeeps(s: State, offer: OfferBody, stored: bool)
    requires Inv(s)
    ensures Inv(DoSendOffer(s, offer, stored))
  {
    hide Inv;
    BeginKeeps(s, Offer(offer));
    if s.deviceId.Some? {
      var kept := s.(offerReceipts := s.offerReceipts[s.deviceId.value := offer]);
      OffersKeep(s, kept.offerReceipts, s.pendingAddress);
      BeginKeeps(kept, Offer(offer));
    }
  }

  lemma SetAccessKeeps(s: State, device: Option<Id>, unlock: bool)
    requires Inv(s)
    ensures Inv(DoSetAccess(s, device, unlock))
  {
    hide LockOk, ReceiptsOk, ValidFor;
  }

  lemma SetPollingKeeps(s: State, enabled: bool)
    requires Inv(s)
    ensures Inv(DoSetPolling(s, enabled))
  {
    hide CallsOk, LockOk, ShownOk, ReceiptsOk;
  }

  /** A status read made under a new generation while the lock is free. */
  function IssueRead(s: State, purpose: Purpose, device: Id): State {
    Issue(s.(generation := s.generation + 1), purpose, device, s.accessEpoch)
  }

  lemma IssueReadLock(calls: Calls, n: nat, call: Call)
    requires LockOk(calls, false) && Read(call)
    ensures LockOk(calls[n := call], false)
  {
  }

  lemma IssueReadReads(calls: Calls, n: nat, generation: nat, epoch: nat, call: Call)
    requires ReadsOk(calls, generation, false, epoch)
    requires CurrentRead(generation + 1, call) && call.epoch == epoch
    ensures ReadsOk(calls[n := call], generation + 1, false, epoch)
  {
  }

  lemma IssueReadClocks(calls: Calls, n: nat, generation: nat, epoch: nat, clock: nat, ackedAt: nat, shownAt: nat, call: Call)
    requires ClocksOk(calls, generation, clock, ackedAt, shownAt) && ReadsOk(calls, generation, false, epoch)
    requires call.served.None?
    ensures ClocksOk(calls[n := call], generation + 1, clock, ackedAt, shownAt)
  {
  }

  lemma IssueReadKeeps(s: State, purpose: Purpose, device: Id)
    requires Inv(s) && !s.mutationLocked && s.deviceId == Some(device)
    requires (purpose.Poll? || purpose.Reload?) && purpose.generation == s.generation + 1
    ensures Inv(IssueRead(s, purpose, device))
  {
    hide CallsOk, LockOk, ReadsOk, ClocksOk, ShownOk;
    var call := Call(purpose, device, s.accessEpoch, None);
    BeginCalls(s.calls, s.nextCall, s.accessEpoch, s.deviceId, call);
    IssueReadLock(s.calls, s.nextCall, call);
    IssueReadReads(s.calls, s.nextCall, s.generation, s.accessEpoch, call);
    IssueReadClocks(s.calls, s.nextCall, s.generation, s.accessEpoch, s.clock, s.ackedAt, s.shownAt, call);
  }

  lemma RefreshKeeps(s: State)
    requires Inv(s)
    ensures Inv(DoRefresh(s))
  {
    hide Inv;
    if CanRefresh(s) {
      IssueReadKeeps(s, Poll(s.generation + 1), s.deviceId.value);
    }
  }

  lemma ServeLock(calls: Calls, id: nat, locked: bool, at: nat)
    requires LockOk(calls, locked) && id in calls
    ensures LockOk(calls[id := calls[id].(served := Some(at))], locked)
  {
    var t := calls[id := calls[id].(served := Some(at))];
    assert forall k :: k in calls ==> InProgress(t[k]) == InProgress(calls[k]);
  }

  lemma ServeReads(calls: Calls, id: nat, generation: nat, locked: bool, epoch: nat, at: nat)
    requires ReadsOk(calls, generation, locked, epoch) && id in calls
    ensures ReadsOk(calls[id := calls[id].(served := Some(at))], generation, locked, epoch)
  {
    var t := calls[id := calls[id].(served := Some(at))];
    assert forall k :: k in calls ==> CurrentRead(generation, t[k]) == CurrentRead(generation, calls[k]);
  }

  lemma ServeKeeps(s: State, id: nat)
    requires Inv(s) && id in s.calls
    ensures Inv(DoServe(s, id))
  {
    hide LockOk, ReadsOk, ShownOk;
    ServeLock(s.calls, id, s.mutationLocked, s.clock + 1);
    ServeReads(s.calls, id, s.generation, s.mutationLocked, s.accessEpoch, s.clock + 1);
  }

  // ------------------------------------------------------------------ answers

  ghost function Without(s: State, id: nat): State {
    s.(calls := s.calls - {id})
  }

  ghost function Released(s: State, id: nat): State {
    s.(calls := s.calls - {id}, mutationLocked := false)
  }

  lemma ReadDoneLock(calls: Calls, id: nat, locked: bool)
    requires LockOk(calls, locked) && id in calls && !InProgress(calls[id])
    ensures LockOk(calls - {id}, locked)
  {
    if locked {
      var k :| k in calls && InProgress(calls[k]);
      assert k in calls - {id};
    }
  }

  lemma ReadDoneKeeps(s: State, id: nat)
    requires Inv(s) && id in s.calls && !InProgress(s.calls[id])
    ensures Inv(Without(s, id))
  {
    hide LockOk, ShownOk;
    ReadDoneLock(s.calls, id, s.mutationLocked);
  }

  /** Ending the mutation in progress releases the lock, and leaves no read of the present generation. */
  lemma ReleasedKeeps(s: State, id: nat)
    requires Inv(s) && id in s.calls && InProgress(s.calls[id])
    ensures Inv(Released(s, id))
    ensures forall k :: k in Released(s, id).calls ==> !InProgress(s.calls[k]) && !CurrentRead(s.generation, s.calls[k])
  {
    hide ValidFor;
  }

  lemma AckKeeps(s: State, at: nat)
    requires Inv(s) && at <= s.clock
    requires forall k :: k in s.calls ==> !InProgress(s.calls[k]) && !CurrentRead(s.generation, s.calls[k])
    ensures Inv(s.(ackedAt := Max(s.ackedAt, at)))
  {
    hide CallsOk, LockOk, ReadsOk, ShownOk, ReceiptsOk;
  }

  /** Showing a status that is valid, of the present access, and no older than what is known. */
  lemma ShowKeeps(s: State, call: Call, status: Status)
    requires Inv(s) && !s.mutationLocked
    requires forall k :: k in s.calls ==> !CurrentRead(s.generation, s.calls[k])
    requires call.served.Some? && s.shownAt <= call.served.value <= s.clock
    requires call.epoch == s.accessEpoch && s.deviceId == Some(call.device) && ValidFor(status, s.deviceId)
    ensures Inv(Show(s, call, status))
  {
    hide CallsOk, ReadsOk, ReceiptsOk, ValidFor;
    IdleHasNoPost(s);
  }

  lemma OnlyCurrentRead(s: State, id: nat)
    requires Inv(s) && id in s.calls && CurrentRead(s.generation, s.calls[id])
    ensures forall k :: k in Without(s, id).calls ==> !CurrentRead(s.generation, s.calls[k])
    ensures !s.mutationLocked && s.calls[id].epoch == s.accessEpoch && s.deviceId == Some(s.calls[id].device)
    ensures s.calls[id].served.Some? ==> s.ackedAt <= s.calls[id].served.value && s.shownAt <= s.calls[id].served.value <= s.clock
  {
    hide ValidFor;
  }

  lemma AnswerPollKeeps(s: State, id: nat, reply: Reply, valid: bool)
    requires Inv(s) && Deliverable(s, id, reply) && s.calls[id].purpose.Poll?
    requires valid <==> reply.Reported? && ValidFor(reply.status, s.deviceId)
    ensures Inv(AnswerPoll(Without(s, id), s.calls[id], reply, valid))
  {
    hide Inv, ValidFor, FindPeer;
    var call, rest := s.calls[id], Without(s, id);
    ReadDoneKeeps(s, id);
    if valid && call.purpose.generation == s.generation {
      OnlyCurrentRead(s, id);
      ShowKeeps(rest, call, reply.status);
      var shown := Show(rest, call, reply.status);
      OffersKeep(shown, shown.offerReceipts, None);
    }
  }

  lemma AnswerReloadKeeps(s: State, id: nat, reply: Reply, valid: bool)
    requires Inv(s) && Deliverable(s, id, reply) && s.calls[id].purpose.Reload?
    requires valid <==> reply.Reported? && ValidFor(reply.status, s.deviceId)
    ensures Inv(AnswerReload(Without(s, id), s.calls[id], reply, valid))
  {
    hide Inv, ValidFor;
    ReadDoneKeeps(s, id);
    if valid && s.calls[id].purpose.generation == s.generation {
      OnlyCurrentRead(s, id);
      ShowKeeps(Without(s, id), s.calls[id], reply.status);
    }
  }

  lemma ForgetKeeps(s: State, pending: Option<AddressRequest>)
    requires Inv(s)
    ensures Inv(s.(pendingAddress := pending, current := None))
  {
    hide CallsOk, LockOk, ReadsOk, ClocksOk, ReceiptsOk;
  }

  /** With no mutation in progress, a reload may be issued under a new generation. */
  lemma AddressConflictKeeps(s: State, call: Call, request: AddressRequest)
    requires Inv(s) && !s.mutationLocked
    requires call.epoch == s.accessEpoch ==> s.deviceId == Some(call.device)
    ensures Inv(AddressConflict(s, call, request))
  {
    hide Inv;
    if s.accessEpoch == call.epoch {
      var pending := if s.pendingAddress == Some(request) then None else s.pendingAddress;
      ForgetKeeps(s, pending);
      var forgotten := s.(pendingAddress := pending, current := None);
      IssueReadKeeps(forgotten, Reload(s.generation + 1), call.device);
    }
  }

  lemma ConfirmClocks(calls: Calls, n: nat, generation: nat, clock: nat, ackedAt: nat, shownAt: nat, call: Call)
    requires ClocksOk(calls, generation, clock, ackedAt, shownAt)
    requires call.served.None?
    ensures ClocksOk(calls[n := call], generation, clock, ackedAt, shownAt)
  {
  }

  lemma ConfirmReads(calls: Calls, n: nat, generation: nat, epoch: nat, call: Call)
    requires ReadsOk(calls, generation, false, epoch) && !Read(call)
    requires forall k :: k in calls ==> !CurrentRead(generation, calls[k])
    ensures ReadsOk(calls[n := call], generation, true, epoch)
  {
  }

  /** A confirmation read follows its mutation's acknowledgement under the same lock. */
  lemma ConfirmIssued(s: State, id: nat, request: AddressRequest)
    requires Inv(s) && id in s.calls && s.calls[id].purpose.Post? && s.calls[id].served.Some?
    requires s.calls[id].epoch == s.accessEpoch && s.deviceId == Some(s.calls[id].device)
    ensures var acked := Without(s, id).(ackedAt := Max(s.ackedAt, s.calls[id].served.value));
            Inv(Issue(acked, Confirm(request), s.calls[id].device, s.calls[id].epoch))
  {
    hide CallsOk, LockOk, ReadsOk, ClocksOk, ShownOk;
    ReleasedKeeps(s, id);
    ServedInPast(s, id);
    HeldLock(s, id);
    AckKeeps(Released(s, id), s.calls[id].served.value);
    var t := Released(s, id).(ackedAt := Max(s.ackedAt, s.calls[id].served.value));
    var call := Call(Confirm(request), s.calls[id].device, s.accessEpoch, None);
    BeginCalls(t.calls, t.nextCall, t.accessEpoch, t.deviceId, call);
    BeginLock(t.calls, t.nextCall, call);
    ConfirmReads(t.calls, t.nextCall, t.generation, t.accessEpoch, call);
    ConfirmClocks(t.calls, t.nextCall, t.generation, t.clock, t.ackedAt, t.shownAt, call);
  }

  lemma HeldLock(s: State, id: nat)
    requires Inv(s) && id in s.calls && InProgress(s.calls[id])
    ensures s.mutationLocked
  {
    hide ShownOk;
  }

  lemma AnswerAcceptedKeeps(s: State, id: nat, cleared: bool)
    requires Inv(s) && Deliverable(s, id, Accepted)
    ensures Inv(AnswerAccepted(Without(s, id), s.calls[id], cleared))
  {
    hide Inv;
    var call := s.calls[id];
    assert call.served.value <= s.clock by { ServedInPast(s, id); }
    ReleasedKeeps(s, id);
    AckKeeps(Released(s, id), call.served.value);
    var released := Released(s, id).(ackedAt := Max(s.ackedAt, call.served.value));
    StorageKeeps(released, s.settingsReceipts - {call.device}, s.runReceipts);
    StorageKeeps(released, s.settingsReceipts, s.runReceipts - {call.device});
    OffersKeep(released, s.offerReceipts - {call.device}, s.pendingAddress);
    if call.purpose.mutation.MoveAddress? && s.accessEpoch == call.epoch && s.deviceId == Some(call.device) {
      ConfirmIssued(s, id, call.purpose.mutation.address);
    }
  }

  lemma ServedInPast(s: State, id: nat)
    requires Inv(s) && id in s.calls && s.calls[id].served.Some?
    ensures s.calls[id].served.value <= s.clock
  {
    hide ValidFor;
  }

  lemma DeviceOfEpoch(s: State, id: nat)
    requires Inv(s) && id in s.calls
    ensures s.calls[id].epoch == s.accessEpoch ==> s.deviceId == Some(s.calls[id].device)
  {
    hide ValidFor;
  }

  lemma AnswerRefusedKeeps(s: State, id: nat, code: Code, cleared: bool)
    requires Inv(s) && id in s.calls && s.calls[id].purpose.Post?
    ensures Inv(AnswerRefused(Without(s, id), s.calls[id], code, cleared))
  {
    hide Inv, AddressConflict;
    var call := s.calls[id];
    ReleasedKeeps(s, id);
    DeviceOfEpoch(s, id);
    StorageKeeps(Released(s, id), s.settingsReceipts, s.runReceipts - {call.device});
    if call.purpose.mutation.MoveAddress? {
      AddressConflictKeeps(Released(s, id), call, call.purpose.mutation.address);
    }
  }

  lemma ConfirmIsFresh(s: State, id: nat)
    requires Inv(s) && id in s.calls && s.calls[id].purpose.Confirm? && s.calls[id].served.Some?
    ensures s.ackedAt <= s.calls[id].served.value && s.shownAt <= s.calls[id].served.value <= s.clock
  {
    hide ValidFor;
  }

  lemma AnswerConfirmKeeps(s: State, id: nat, reply: Reply, valid: bool)
    requires Inv(s) && Deliverable(s, id, reply) && s.calls[id].purpose.Confirm?
    requires valid <==> reply.Reported? && ValidFor(reply.status, s.deviceId)
    ensures Inv(AnswerConfirm(Without(s, id), s.calls[id], reply, valid))
  {
    hide Inv, ValidFor, AddressConflict, FindPeer;
    var call, released := s.calls[id], Released(s, id);
    ReleasedKeeps(s, id);
    DeviceOfEpoch(s, id);
    AddressConflictKeeps(released, call, call.purpose.address);
    if valid && s.accessEpoch == call.epoch && s.deviceId == Some(call.device) {
      ConfirmIsFresh(s, id);
      ShowKeeps(released, call, reply.status);
      var shown := Show(released, call, reply.status);
      OffersKeep(shown, shown.offerReceipts, None);
    }
  }

  lemma AnswerKeeps(s: State, id: nat, reply: Reply, cleared: bool)
    requires Inv(s) && Deliverable(s, id, reply)
    ensures Inv(DoAnswer(s, id, reply, cleared))
  {
    hide Inv, ValidFor, AnswerPoll, AnswerAccepted, AnswerRefused, AnswerConfirm, AnswerReload;
    var valid := reply.Reported? && ValidFor(reply.status, s.deviceId);
    match s.calls[id].purpose {
      case Poll(_) => AnswerPollKeeps(s, id, reply, valid);
      case Confirm(_) => AnswerConfirmKeeps(s, id, reply, valid);
      case Reload(_) => AnswerReloadKeeps(s, id, reply, valid);
      case Post(_) =>
        if reply.Accepted? {
          AnswerAcceptedKeeps(s, id, cleared);
        } else {
          AnswerRefusedKeeps(s, id, reply.code, cleared);
        }
    }
  }

  lemma ActKeeps(s: State, action: Action)
    requires Inv(s)
    ensures Inv(DoAct(s, action))
  {
    hide Inv, DoUpdateSettings, SendSettings, DoRunNow, SendRun, DoUpdateAddress, DoSendOffer, Begin;
    match action {
      case UpdateSettings(folderId, settings, newId, stored, cleared) =>
        UpdateSettingsKeeps(s, folderId, settings, newId, stored, cleared);
      case RetrySettings(stored, cleared) =>
        if CanMutate(s) && s.deviceId.value in s.settingsReceipts {
          SendSettingsKeeps(s, s.settingsReceipts[s.deviceId.value], stored, cleared);
        }
      case DiscardSettings(cleared) =>
        if CanMutate(s) {
          StorageKeeps(s, s.settingsReceipts - {s.deviceId.value}, s.runReceipts);
        }
      case RunNow(folderId, newId, stored) => RunNowKeeps(s, folderId, newId, stored);
      case RetryRun(stored) =>
        if CanMutate(s) && s.deviceId.value in s.runReceipts {
          SendRunKeeps(s, s.runReceipts[s.deviceId.value], stored);
        }
      case DiscardRun(cleared) =>
        if CanMutate(s) {
          StorageKeeps(s, s.settingsReceipts, s.runReceipts - {s.deviceId.value});
        }
      case UpdateAddress(peerId, candidate) => UpdateAddressKeeps(s, peerId, candidate);
      case RetryAddress(peerId) =>
        if s.pendingAddress.Some? {
          BeginKeeps(s, MoveAddress(s.pendingAddress.value));
        }
      case CancelAddress(peerId) => OffersKeep(s, s.offerReceipts, None);
      case SendOffer(offer, stored) => SendOfferKeeps(s, offer, stored);
      case DiscardOffer(cleared) =>
        if s.deviceId.Some? {
          OffersKeep(s, s.offerReceipts - {s.deviceId.value}, s.pendingAddress);
        }
      case MutatePlainly(body) => BeginKeeps(s, Plain(body));
    }
  }

  /** Every step keeps the invariant. */
  lemma NextKeeps(s: State, e: Event)
    requires Inv(s) && Enabled(s, e)
    ensures Inv(Next(s, e))
  {
    hide Inv, DoSetAccess, DoSetPolling, DoRefresh, DoServe, DoAct, DoAnswer;
    match e {
      case SetAccess(device, unlock) => SetAccessKeeps(s, device, unlock);
      case SetPolling(enabled) => SetPollingKeeps(s, enabled);
      case Refresh => RefreshKeeps(s);
      case Act(action) => ActKeeps(s, action);
      case Serve(id) => ServeKeeps(s, id);
      case Answer(id, reply, cleared) => AnswerKeeps(s, id, reply, cleared);
    }
  }
}
