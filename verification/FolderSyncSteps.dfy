/** What each kind of step may change, and what it must leave alone. */
module FolderSyncSteps {
  import opened Basics
  import opened FolderStatus
  import opened FolderSync
  import opened FolderSyncInvariant

  ghost predicate SameSession(s: State, t: State) {
    && t.deviceId == s.deviceId && t.unlocked == s.unlocked && t.pollingEnabled == s.pollingEnabled
    && t.accessEpoch == s.accessEpoch && t.current == s.current
    && t.clock == s.clock && t.ackedAt == s.ackedAt && t.shownAt == s.shownAt
  }

  /** A step that sends nothing: only storage and the saved address request can differ. */
  ghost predicate Quiet(s: State, t: State) {
    && SameSession(s, t)
    && t.calls == s.calls && t.nextCall == s.nextCall
    && t.generation == s.generation && t.mutationLocked == s.mutationLocked
  }

  /** A step that takes the lock and sends `m`. */
  ghost predicate Began(s: State, t: State, m: Mutation) {
    && SameSession(s, t) && CanMutate(s)
    && t.calls == s.calls[s.nextCall := Call(Post(m), s.deviceId.value, s.accessEpoch, None)]
    && t.nextCall == s.nextCall + 1
    && t.generation == s.generation + 1 && t.mutationLocked
  }

  /** The mutation a step has sent, if it sent one. */
  ghost function Sent(s: State, t: State): Option<Mutation> {
    if s.nextCall in t.calls && t.calls[s.nextCall].purpose.Post? then Some(t.calls[s.nextCall].purpose.mutation) else None
  }

  ghost predicate ActsAsOne(s: State, t: State) {
    Quiet(s, t) || (Sent(s, t).Some? && Began(s, t, Sent(s, t).value))
  }

  lemma BeginStep(s: State, m: Mutation)
    ensures CanMutate(s) ==> Began(s, Begin(s, m), m) && Sent(s, Begin(s, m)) == Some(m)
    ensures !CanMutate(s) ==> Begin(s, m) == s
    ensures Begin(s, m).settingsReceipts == s.settingsReceipts && Begin(s, m).runReceipts == s.runReceipts
    ensures Begin(s, m).offerReceipts == s.offerReceipts && Begin(s, m).pendingAddress == s.pendingAddress
  {
  }

  /** A status that settles a saved settings change without another request. */
  predicate Settles(o: Observation) {
    o == Applied || o == Pending || o == Conflict
  }

  /** A change on record is the request `body`. */
  predicate IsRequest(change: Option<SettingsRequest>, body: SettingsBody) {
    && change.Some? && change.value.folderId == body.folderId && change.value.changeId == body.changeId
    && change.value.expectedRevision == body.expectedRevision && change.value.settings == body.settings
  }

  /** The link is at the revision that `body`, made by this device, leads to. */
  predicate IsApplied(state: SettingsState, device: Option<Id>, body: SettingsBody) {
    && device == Some(state.changedBy) && state.changeId == body.changeId
    && state.revision == body.expectedRevision + 1 && state.settings == body.settings
  }

  /** What each observation says about the link shown. */
  lemma ObserveMeans(s: State, body: SettingsBody)
    ensures Observe(s, body) == NoLink <==> CurrentLink(s, body.folderId).None?
    ensures CurrentLink(s, body.folderId).Some? ==>
              var state := CurrentLink(s, body.folderId).value.linkSettings.value;
              var known :=
                IsApplied(state, s.deviceId, body) || IsRequest(state.pendingChange, body) || IsRequest(state.conflictedChange, body);
              && (Observe(s, body) == Applied <==> IsApplied(state, s.deviceId, body))
              && (Observe(s, body) == Pending <==> !IsApplied(state, s.deviceId, body) && IsRequest(state.pendingChange, body))
              && (Observe(s, body) == Conflict <==>
                    && !IsApplied(state, s.deviceId, body) && !IsRequest(state.pendingChange, body)
                    && IsRequest(state.conflictedChange, body))
              && (Observe(s, body) == Unknown <==> !known && state.revision == body.expectedRevision)
              && (Observe(s, body) == Stale <==> !known && state.revision != body.expectedRevision)
  {
    hide Link;
  }

  lemma ObserveIgnoresStorage(s: State, t: State, body: SettingsBody)
    requires t.current == s.current && t.deviceId == s.deviceId
    ensures Observe(t, body) == Observe(s, body)
  {
    hide Link;
  }

  /** A settings change is sent only if the shown status knows nothing of it, and only with its receipt stored. */
  lemma SendSettingsStep(s: State, body: SettingsBody, stored: bool, cleared: bool)
    requires CanMutate(s)
    ensures var t, device := SendSettings(s, body, stored, cleared), s.deviceId.value;
            && (t == s || Quiet(s, t) || (Began(s, t, ChangeSettings(body)) && Sent(s, t) == Some(ChangeSettings(body))))
            && t.runReceipts == s.runReceipts
            && (Began(s, t, ChangeSettings(body)) ==>
                  Observe(s, body) == Unknown && t.settingsReceipts == s.settingsReceipts[device := body])
            && (t.settingsReceipts == s.settingsReceipts
                || t.settingsReceipts == s.settingsReceipts[device := body]
                || (t.settingsReceipts == s.settingsReceipts - {device} && Settles(Observe(s, body))))
  {
    hide Observe, Begin;
    if stored {
      var device := s.deviceId.value;
      var kept := s.(settingsReceipts := s.settingsReceipts[device := body]);
      ObserveIgnoresStorage(s, kept, body);
      BeginStep(kept, ChangeSettings(body));
      assert kept.settingsReceipts - {device} == s.settingsReceipts - {device};
      assert kept.settingsReceipts[device := body] == kept.settingsReceipts;
    }
  }

  lemma SendRunStep(s: State, body: RunBody, stored: bool)
    requires CanMutate(s)
    ensures var t, device := SendRun(s, body, stored), s.deviceId.value;
            && (t == s || (Began(s, t, RequestRun(body)) && Sent(s, t) == Some(RequestRun(body))))
            && t.settingsReceipts == s.settingsReceipts
            && (t.runReceipts == s.runReceipts || t.runReceipts == s.runReceipts[device := body])
            && (t != s ==> t.runReceipts == s.runReceipts[device := body])
  {
    hide Begin;
    BeginStep(s.(runReceipts := s.runReceipts[s.deviceId.value := body]), RequestRun(body));
  }

  // ------------------------------------------------------------ user actions

  ghost predicate KeepsSettings(s: State, t: State, device: Id)
    requires device in s.settingsReceipts
  {
    device in t.settingsReceipts && t.settingsReceipts[device] == s.settingsReceipts[device]
  }

  ghost predicate KeepsRun(s: State, t: State, device: Id)
    requires device in s.runReceipts
  {
    device in t.runReceipts && t.runReceipts[device] == s.runReceipts[device]
  }

  /** The reasons for which an action of the user may drop a settings receipt. */
  ghost predicate ActionSettles(s: State, action: Action, device: Id)
    requires device in s.settingsReceipts
  {
    && s.deviceId == Some(device)
    && (action.DiscardSettings?
        || ((action.UpdateSettings? || action.RetrySettings?) && Settles(Observe(s, s.settingsReceipts[device]))))
  }

  /** A run the shown status allows: of a link that is neither paused nor running, at the generation and revision shown. */
  ghost predicate FreshRun(s: State, body: RunBody) {
    var link := CurrentLink(s, body.folderId);
    && link.Some? && link.value.linkSettings.Some? && link.value.linkRun.Some?
    && !link.value.linkSettings.value.settings.paused
    && body.settingsRevision == link.value.linkSettings.value.revision
    && var run := link.value.linkRun.value;
       && run.pendingRequest.None? && run.phase != Some(Preparing) && run.phase != Some(Running)
       && body.expectedGeneration == run.generation
  }

  /** What is sent is saved, and the shown status knows nothing of a settings change and allows a new run. */
  ghost predicate SendsRetained(s: State, t: State) {
    s.deviceId.Some? && Sent(s, t).Some? ==> Retains(s, t, Sent(s, t).value)
  }

  ghost predicate Retains(s: State, t: State, m: Mutation)
    requires s.deviceId.Some?
  {
    var device := s.deviceId.value;
    match m
    case ChangeSettings(body) =>
      device in t.settingsReceipts && t.settingsReceipts[device] == body && Observe(s, body) == Unknown
    case RequestRun(body) =>
      && device in t.runReceipts && t.runReceipts[device] == body
      && (device in s.runReceipts || FreshRun(s, body))
    case MoveAddress(request) => t.pendingAddress == Some(request)
    case Offer(offer) => device in t.offerReceipts && t.offerReceipts[device] == offer
    case Plain(_) => true
  }

  ghost predicate ActSummary(s: State, action: Action, t: State) {
    && ActsAsOne(s, t)
    && SendsRetained(s, t)
    && (forall d :: d in s.settingsReceipts ==> KeepsSettings(s, t, d) || (d !in t.settingsReceipts && ActionSettles(s, action, d)))
    && (forall d :: d in s.runReceipts ==> KeepsRun(s, t, d) || (d !in t.runReceipts && action.DiscardRun? && s.deviceId == Some(d)))
  }

  lemma NextCallIsNew(s: State)
    requires Inv(s)
    ensures s.nextCall !in s.calls
  {
    hide LockOk, ReadsOk, ClocksOk, ShownOk, ReceiptsOk;
  }

  /** A step that leaves the settings and run receipts alone. */
  lemma PlainSummary(s: State, action: Action, t: State)
    requires s.nextCall !in s.calls
    requires t.settingsReceipts == s.settingsReceipts && t.runReceipts == s.runReceipts
    requires Quiet(s, t) || (Sent(s, t).Some? && Began(s, t, Sent(s, t).value)
                             && Retains(s, t, Sent(s, t).value))
    ensures ActSummary(s, action, t)
  {
    hide Retains, Observe;
  }

  lemma SettingsSummary(s: State, action: Action, body: SettingsBody, stored: bool, cleared: bool)
    requires s.nextCall !in s.calls && CanMutate(s)
    requires action.UpdateSettings? || action.RetrySettings?
    requires s.deviceId.value in s.settingsReceipts ==> body == s.settingsReceipts[s.deviceId.value]
    ensures ActSummary(s, action, SendSettings(s, body, stored, cleared))
  {
    hide Observe, SendSettings, FreshRun;
    SendSettingsStep(s, body, stored, cleared);
  }

  lemma RunSummary(s: State, action: Action, body: RunBody, stored: bool)
    requires s.nextCall !in s.calls && CanMutate(s)
    requires if s.deviceId.value in s.runReceipts then body == s.runReceipts[s.deviceId.value] else FreshRun(s, body)
    ensures ActSummary(s, action, SendRun(s, body, stored))
  {
    hide Observe, SendRun, FreshRun;
    SendRunStep(s, body, stored);
  }

  lemma UpdateSettingsSummary(s: State, action: Action)
    requires s.nextCall !in s.calls && action.UpdateSettings?
    ensures ActSummary(s, action,
                       DoUpdateSettings(s, action.folderId, action.settings, action.newId, action.stored, action.cleared))
  {
    hide ActSummary, SendSettings;
    var link := CurrentLink(s, action.folderId);
    PlainSummary(s, action, s);
    if CanMutate(s) && link.Some? {
      var state := link.value.linkSettings.value;
      if s.deviceId.value in s.settingsReceipts {
        SettingsSummary(s, action, s.settingsReceipts[s.deviceId.value], action.stored, action.cleared);
      } else if state.pendingChange.Some? {
        SettingsSummary(s, action, FromRequest(state.pendingChange.value), action.stored, action.cleared);
      } else {
        SettingsSummary(s, action, SettingsBody(action.folderId, action.newId, state.revision, action.settings), action.stored, action.cleared);
      }
    }
  }

  lemma RunNowSummary(s: State, action: Action)
    requires s.nextCall !in s.calls && action.RunNow?
    ensures ActSummary(s, action, DoRunNow(s, action.folderId, action.newId, action.stored))
  {
    hide ActSummary, SendRun;
    var link := CurrentLink(s, action.folderId);
    PlainSummary(s, action, s);
    if CanMutate(s) && link.Some? {
      if s.deviceId.value in s.runReceipts {
        RunSummary(s, action, s.runReceipts[s.deviceId.value], action.stored);
      } else if link.value.linkRun.Some? {
        var run, settings := link.value.linkRun.value, link.value.linkSettings.value;
        if !(settings.settings.paused || run.pendingRequest.Some? || run.phase == Some(Preparing) || run.phase == Some(Running)) {
          RunSummary(s, action, RunBody(action.folderId, action.newId, run.generation, settings.revision), action.stored);
        }
      }
    }
  }

  lemma BeginSummary(s: State, action: Action, m: Mutation, offers: map<Id, OfferBody>, pending: Option<AddressRequest>)
    requires s.nextCall !in s.calls && !m.ChangeSettings? && !m.RequestRun?
    requires m.MoveAddress? ==> pending == Some(m.address)
    requires m.Offer? && s.deviceId.Some? ==> s.deviceId.value in offers && offers[s.deviceId.value] == m.offer
    ensures ActSummary(s, action, Begin(s.(offerReceipts := offers, pendingAddress := pending), m))
  {
    hide ActSummary, Begin;
    var kept := s.(offerReceipts := offers, pendingAddress := pending);
    BeginStep(kept, m);
    PlainSummary(s, action, Begin(kept, m));
  }

  lemma AddressSummary(s: State, action: Action)
    requires s.nextCall !in s.calls && action.UpdateAddress?
    ensures ActSummary(s, action, DoUpdateAddress(s, action.peerId, action.candidate))
  {
    hide ActSummary, Begin, FindPeer;
    PlainSummary(s, action, s);
    if s.pendingAddress.Some? {
      BeginSummary(s, action, MoveAddress(s.pendingAddress.value), s.offerReceipts, s.pendingAddress);
    } else if s.current.Some? {
      var peer := FindPeer(s.current.value.status.peers, action.peerId);
      if peer.Some? && peer.value.address.Some? {
        var request := AddressRequest(s.nextCall, action.peerId, peer.value.address.value, action.candidate);
        BeginSummary(s, action, MoveAddress(request), s.offerReceipts, Some(request));
      }
    }
  }

  lemma OfferSummary(s: State, action: Action)
    requires s.nextCall !in s.calls && action.SendOffer?
    ensures ActSummary(s, action, DoSendOffer(s, action.offer, action.stored))
  {
    hide ActSummary, Begin;
    PlainSummary(s, action, s);
    if s.deviceId.Some? {
      BeginSummary(s, action, Offer(action.offer), s.offerReceipts[s.deviceId.value := action.offer], s.pendingAddress);
      if s.deviceId.value in s.offerReceipts && s.offerReceipts[s.deviceId.value] == action.offer {
        BeginSummary(s, action, Offer(action.offer), s.offerReceipts, s.pendingAddress);
      }
    }
  }

  lemma DiscardSummary(s: State, action: Action)
    requires s.nextCall !in s.calls
    requires action.DiscardSettings? || action.DiscardRun?
    ensures ActSummary(s, action, DoAct(s, action))
  {
    hide Observe;
  }

  lemma ActStep(s: State, action: Action)
    requires s.nextCall !in s.calls
    ensures ActSummary(s, action, DoAct(s, action))
  {
    hide ActSummary, DoUpdateSettings, SendSettings, DoRunNow, SendRun, DoUpdateAddress, DoSendOffer, Begin;
    PlainSummary(s, action, s);
    match action {
      case UpdateSettings(_, _, _, _, _) => UpdateSettingsSummary(s, action);
      case RetrySettings(stored, cleared) =>
        if CanMutate(s) && s.deviceId.value in s.settingsReceipts {
          SettingsSummary(s, action, s.settingsReceipts[s.deviceId.value], stored, cleared);
        }
      case DiscardSettings(_) => DiscardSummary(s, action);
      case RunNow(_, _, _) => RunNowSummary(s, action);
      case RetryRun(stored) =>
        if CanMutate(s) && s.deviceId.value in s.runReceipts {
          RunSummary(s, action, s.runReceipts[s.deviceId.value], stored);
        }
      case DiscardRun(_) => DiscardSummary(s, action);
      case UpdateAddress(_, _) => AddressSummary(s, action);
      case RetryAddress(_) =>
        if s.pendingAddress.Some? {
          BeginSummary(s, action, MoveAddress(s.pendingAddress.value), s.offerReceipts, s.pendingAddress);
        }
      case CancelAddress(_) => PlainSummary(s, action, s.(pendingAddress := None));
      case SendOffer(_, _) => OfferSummary(s, action);
      case DiscardOffer(_) =>
        if s.deviceId.Some? {
          PlainSummary(s, action, s.(offerReceipts := s.offerReceipts - {s.deviceId.value}));
        }
      case MutatePlainly(body) => BeginSummary(s, action, Plain(body), s.offerReceipts, s.pendingAddress);
    }
  }

  // ------------------------------------------------------------------ answers

  /** The console still waits for the status that `call` asks for. */
  predicate Awaited(s: State, call: Call) {
    && s.unlocked
    && match call.purpose
       case Poll(generation) => generation == s.generation && s.pollingEnabled && !s.mutationLocked
       case Confirm(_) => s.deviceId == Some(call.device) && s.accessEpoch == call.epoch
       case Reload(generation) =>
         generation == s.generation && !s.mutationLocked && s.deviceId == Some(call.device) && s.accessEpoch == call.epoch
       case Post(_) => false
  }

  /** The guard under which the answer to `call` replaces the shown status. */
  ghost predicate Shows(s: State, call: Call, reply: Reply) {
    reply.Reported? && ValidFor(reply.status, s.deviceId) && Awaited(s, call)
  }

  ghost predicate AccessKept(s: State, t: State) {
    && t.deviceId == s.deviceId && t.unlocked == s.unlocked && t.pollingEnabled == s.pollingEnabled
    && t.accessEpoch == s.accessEpoch && t.clock == s.clock
  }

  /** An answer consumes its call, may issue one follow-up read, and never takes the lock. */
  ghost predicate CallsAfter(s: State, id: nat, t: State) {
    && t.generation >= s.generation && t.nextCall >= s.nextCall
    && (t.mutationLocked ==> s.mutationLocked)
    && (t.calls == s.calls - {id} || FollowsUp(s.calls - {id}, s.nextCall, t.calls))
  }

  /** One more read, confirming an address or reloading the status. */
  ghost predicate FollowsUp(before: Calls, n: nat, after: Calls) {
    && n in after
    && (after[n].purpose.Confirm? || after[n].purpose.Reload?)
    && after == before[n := after[n]]
  }

  ghost predicate ShownAfter(s: State, call: Call, reply: Reply, t: State) {
    if Shows(s, call, reply) then
      && call.served.Some?
      && t.current == Some(Shown(reply.status, call.served.value, call.device, call.epoch))
      && t.shownAt == call.served.value
    else
      (t.current == s.current || t.current == None) && t.shownAt == s.shownAt
  }

  ghost predicate AckedAfter(s: State, call: Call, reply: Reply, t: State) {
    && t.ackedAt >= s.ackedAt
    && (reply.Accepted? ==> call.served.Some? && t.ackedAt >= call.served.value)
    && (!reply.Accepted? ==> t.ackedAt == s.ackedAt)
  }

  /** Only the answer to a request may drop the receipt of its own device. */
  ghost predicate ReceiptsAfter(s: State, call: Call, reply: Reply, t: State) {
    && (t.settingsReceipts == s.settingsReceipts
        || (reply.Accepted? && call.purpose.Post? && call.purpose.mutation.ChangeSettings?
            && t.settingsReceipts == s.settingsReceipts - {call.device}))
    && (t.runReceipts == s.runReceipts
        || ((reply.Accepted? || reply == Refused(RunConflict) || reply == Refused(RunPending))
            && call.purpose.Post? && call.purpose.mutation.RequestRun?
            && t.runReceipts == s.runReceipts - {call.device}))
  }

  ghost predicate AnswerSummary(s: State, id: nat, reply: Reply, t: State) {
    && id in s.calls
    && AccessKept(s, t)
    && CallsAfter(s, id, t)
    && ShownAfter(s, s.calls[id], reply, t)
    && AckedAfter(s, s.calls[id], reply, t)
    && ReceiptsAfter(s, s.calls[id], reply, t)
  }

  lemma AnswerPollStep(s: State, id: nat, reply: Reply, valid: bool)
    requires Deliverable(s, id, reply) && s.calls[id].purpose.Poll?
    requires valid <==> reply.Reported? && ValidFor(reply.status, s.deviceId)
    ensures AnswerSummary(s, id, reply, AnswerPoll(Without(s, id), s.calls[id], reply, valid))
  {
    hide ValidFor, FindPeer;
  }

  lemma AnswerReloadStep(s: State, id: nat, reply: Reply, valid: bool)
    requires Deliverable(s, id, reply) && s.calls[id].purpose.Reload?
    requires valid <==> reply.Reported? && ValidFor(reply.status, s.deviceId)
    ensures AnswerSummary(s, id, reply, AnswerReload(Without(s, id), s.calls[id], reply, valid))
  {
    hide ValidFor;
  }

  /** Forgetting a refused address changes no clock and no receipt, and issues at most a reload. */
  ghost predicate ConflictFrame(s: State, t: State) {
    && t.ackedAt == s.ackedAt && t.shownAt == s.shownAt
    && t.settingsReceipts == s.settingsReceipts && t.runReceipts == s.runReceipts
    && (t.current == s.current || t.current == None)
  }

  ghost predicate ConflictCalls(s: State, t: State) {
    && t.generation >= s.generation && t.nextCall >= s.nextCall && t.mutationLocked == s.mutationLocked
    && (t.calls == s.calls || FollowsUp(s.calls, s.nextCall, t.calls))
  }

  lemma AddressConflictAccess(s: State, call: Call, request: AddressRequest)
    ensures AccessKept(s, AddressConflict(s, call, request))
  {
  }

  lemma AddressConflictFrame(s: State, call: Call, request: AddressRequest)
    ensures ConflictFrame(s, AddressConflict(s, call, request))
  {
  }

  lemma AddressConflictCalls(s: State, call: Call, request: AddressRequest)
    ensures ConflictCalls(s, AddressConflict(s, call, request))
  {
  }

  lemma ConflictSummary(s: State, id: nat, code: Code, request: AddressRequest)
    requires id in s.calls
    ensures AnswerSummary(s, id, Refused(code), AddressConflict(Released(s, id), s.calls[id], request))
  {
    hide ValidFor, AddressConflict;
    AddressConflictAccess(Released(s, id), s.calls[id], request);
    AddressConflictFrame(Released(s, id), s.calls[id], request);
    AddressConflictCalls(Released(s, id), s.calls[id], request);
  }

  /** A released lock, with nothing else changed. */
  lemma ReleasedSummary(s: State, id: nat, reply: Reply)
    requires id in s.calls && !reply.Accepted? && !Shows(s, s.calls[id], reply)
    ensures AnswerSummary(s, id, reply, Released(s, id))
  {
    hide Shows;
  }

  lemma ConfirmedSummary(s: State, id: nat, reply: Reply, pending: Option<AddressRequest>)
    requires id in s.calls && s.calls[id].served.Some? && Shows(s, s.calls[id], reply)
    ensures AnswerSummary(s, id, reply, Show(Released(s, id), s.calls[id], reply.status).(pendingAddress := pending))
  {
    hide ValidFor;
  }

  lemma AnswerConfirmStep(s: State, id: nat, reply: Reply, valid: bool)
    requires Deliverable(s, id, reply) && s.calls[id].purpose.Confirm?
    requires valid <==> reply.Reported? && ValidFor(reply.status, s.deviceId)
    ensures AnswerSummary(s, id, reply, AnswerConfirm(Without(s, id), s.calls[id], reply, valid))
  {
    hide ValidFor, FindPeer, AddressConflict, AnswerSummary;
    var call := s.calls[id];
    if Shows(s, call, reply) {
      ConfirmedSummary(s, id, reply, s.pendingAddress);
      ConfirmedSummary(s, id, reply, None);
    } else {
      ReleasedSummary(s, id, reply);
      if reply == Refused(AddressChanged) {
        ConflictSummary(s, id, AddressChanged, call.purpose.address);
      }
    }
  }

  ghost function Acked(s: State, id: nat): State
    requires Deliverable(s, id, Accepted)
  {
    s.(calls := s.calls - {id}, mutationLocked := false, ackedAt := Max(s.ackedAt, s.calls[id].served.value))
  }

  lemma AckedSummary(s: State, id: nat, settings: map<Id, SettingsBody>, runs: map<Id, RunBody>, offers: map<Id, OfferBody>)
    requires Deliverable(s, id, Accepted)
    requires settings == s.settingsReceipts
             || (s.calls[id].purpose.mutation.ChangeSettings? && settings == s.settingsReceipts - {s.calls[id].device})
    requires runs == s.runReceipts
             || (s.calls[id].purpose.mutation.RequestRun? && runs == s.runReceipts - {s.calls[id].device})
    ensures AnswerSummary(s, id, Accepted,
                          Acked(s, id).(settingsReceipts := settings, runReceipts := runs, offerReceipts := offers))
  {
  }

  ghost function Confirming(s: State, id: nat): State
    requires Deliverable(s, id, Accepted) && s.calls[id].purpose.mutation.MoveAddress?
  {
    var call := Call(Confirm(s.calls[id].purpose.mutation.address), s.calls[id].device, s.calls[id].epoch, None);
    s.(calls := (s.calls - {id})[s.nextCall := call], nextCall := s.nextCall + 1,
       ackedAt := Max(s.ackedAt, s.calls[id].served.value))
  }

  lemma ConfirmingSummary(s: State, id: nat)
    requires Deliverable(s, id, Accepted) && s.calls[id].purpose.mutation.MoveAddress?
    ensures AnswerSummary(s, id, Accepted, Confirming(s, id))
  {
  }

  lemma AnswerAcceptedStep(s: State, id: nat, cleared: bool)
    requires Deliverable(s, id, Accepted)
    ensures AnswerSummary(s, id, Accepted, AnswerAccepted(Without(s, id), s.calls[id], cleared))
  {
    hide AnswerSummary;
    var device := s.calls[id].device;
    AckedSummary(s, id, s.settingsReceipts, s.runReceipts, s.offerReceipts);
    match s.calls[id].purpose.mutation {
      case ChangeSettings(_) => AckedSummary(s, id, s.settingsReceipts - {device}, s.runReceipts, s.offerReceipts);
      case RequestRun(_) => AckedSummary(s, id, s.settingsReceipts, s.runReceipts - {device}, s.offerReceipts);
      case Offer(_) => AckedSummary(s, id, s.settingsReceipts, s.runReceipts, s.offerReceipts - {device});
      case Plain(_) =>
      case MoveAddress(_) => ConfirmingSummary(s, id);
    }
  }

  lemma RunRefusedSummary(s: State, id: nat, code: Code)
    requires id in s.calls && s.calls[id].purpose.Post? && s.calls[id].purpose.mutation.RequestRun?
    requires code == RunConflict || code == RunPending
    ensures AnswerSummary(s, id, Refused(code), Released(s, id).(runReceipts := s.runReceipts - {s.calls[id].device}))
  {
  }

  lemma AnswerRefusedStep(s: State, id: nat, code: Code, cleared: bool)
    requires id in s.calls && s.calls[id].purpose.Post?
    ensures AnswerSummary(s, id, Refused(code), AnswerRefused(Without(s, id), s.calls[id], code, cleared))
  {
    hide AddressConflict, AnswerSummary;
    var call := s.calls[id];
    ReleasedSummary(s, id, Refused(code));
    if call.purpose.mutation.MoveAddress? {
      ConflictSummary(s, id, code, call.purpose.mutation.address);
    } else if call.purpose.mutation.RequestRun? && (code == RunConflict || code == RunPending) {
      RunRefusedSummary(s, id, code);
    }
  }

  lemma AnswerStep(s: State, id: nat, reply: Reply, cleared: bool)
    requires Deliverable(s, id, reply)
    ensures AnswerSummary(s, id, reply, DoAnswer(s, id, reply, cleared))
  {
    hide AnswerSummary, ValidFor, AnswerPoll, AnswerAccepted, AnswerRefused, AnswerConfirm, AnswerReload;
    var valid := reply.Reported? && ValidFor(reply.status, s.deviceId);
    match s.calls[id].purpose {
      case Poll(_) => AnswerPollStep(s, id, reply, valid);
      case Confirm(_) => AnswerConfirmStep(s, id, reply, valid);
      case Reload(_) => AnswerReloadStep(s, id, reply, valid);
      case Post(_) =>
        if reply.Accepted? {
          AnswerAcceptedStep(s, id, cleared);
        } else {
          AnswerRefusedStep(s, id, reply.code, cleared);
        }
    }
  }
}
