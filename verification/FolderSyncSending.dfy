/**
  What an action of the user sends and saves, exactly: a request for each kind of change, stated
  in terms of what is shown, what is saved and what the user asked for.
 */
module FolderSyncSending {
  import opened Basics
  import opened FolderStatus
  import opened FolderSync
  import opened FolderSyncInvariant
  import opened FolderSyncSteps
  import opened FolderSyncRuns

  // ----------------------------------------------------------------- proposals

  /** The settings change an action is about: the saved one, the one already pending, or a new one. */
  ghost function Proposal(s: State, action: Action): Option<SettingsBody>
    requires s.deviceId.Some?
  {
    var receipts, device := s.settingsReceipts, s.deviceId.value;
    match action
    case RetrySettings(stored, _) =>
      if stored && device in receipts then Some(receipts[device]) else None
    case UpdateSettings(folderId, settings, newId, stored, _) =>
      if !stored || CurrentLink(s, folderId).None? then None
      else
        var state := CurrentLink(s, folderId).value.linkSettings.value;
        var body :=
          if device in receipts then receipts[device]
          else if state.pendingChange.Some? then FromRequest(state.pendingChange.value)
          else SettingsBody(folderId, newId, state.revision, settings);
        if body.settings == settings && (device in receipts ==> body.folderId == folderId) then Some(body) else None
    case _ => None
  }

  /** The run an action asks for: the saved one, or a new one that the shown status allows. */
  ghost predicate AsksRun(s: State, action: Action, body: RunBody)
    requires s.deviceId.Some?
  {
    var receipts, device := s.runReceipts, s.deviceId.value;
    match action
    case RetryRun(stored) => stored && device in receipts && receipts[device] == body
    case RunNow(folderId, newId, stored) =>
      && stored && body.folderId == folderId && CurrentLink(s, folderId).Some?
      && if device in receipts then receipts[device] == body else body.requestId == newId && FreshRun(s, body)
    case _ => false
  }

  /** The peer's address in the shown status. */
  ghost function ShownAddress(s: State, peerId: Id): Option<string> {
    if s.current.None? then None
    else
      var peer := FindPeer(s.current.value.status.peers, peerId);
      if peer.None? then None else peer.value.address
  }

  /** The address change an action asks for: the saved one, or a new one away from the address shown. */
  ghost predicate AsksAddress(s: State, action: Action, request: AddressRequest) {
    match action
    case RetryAddress(peerId) => s.pendingAddress == Some(request) && request.peerId == peerId
    case UpdateAddress(peerId, candidate) =>
      && request.peerId == peerId && request.candidateAddress == candidate
      && (if s.pendingAddress.Some? then s.pendingAddress == Some(request)
          else
            && ShownAddress(s, peerId) == Some(request.expectedAddress)
            && request.expectedAddress != candidate && request.serial == s.nextCall)
    case _ => false
  }

  /** Everything an action can ask to be sent. */
  ghost predicate Asks(s: State, action: Action, m: Mutation)
    requires s.deviceId.Some?
  {
    match m
    case ChangeSettings(body) => Proposal(s, action) == Some(body) && Observe(s, body) == Unknown
    case RequestRun(body) => AsksRun(s, action, body)
    case MoveAddress(request) => AsksAddress(s, action, request)
    case Offer(offer) =>
      && action.SendOffer? && action.offer == offer
      && (if s.deviceId.value in s.offerReceipts then s.offerReceipts[s.deviceId.value] == offer else action.stored)
    case Plain(body) => action == MutatePlainly(body)
  }

  /** The address shown for a peer is that of the first peer listed with its identifier. */
  lemma {:induction false} FindPeerIsFirst(peers: seq<Peer>, peerId: Id)
    ensures FindPeer(peers, peerId).None? <==> forall i :: 0 <= i < |peers| ==> peers[i].peerId != peerId
    ensures FindPeer(peers, peerId).Some? ==>
              exists i :: 0 <= i < |peers| && peers[i] == FindPeer(peers, peerId).value && peers[i].peerId == peerId
                          && forall j :: 0 <= j < i ==> peers[j].peerId != peerId
  {
    if peers != [] && peers[0].peerId != peerId {
      var rest := peers[1..];
      FindPeerIsFirst(rest, peerId);
      if FindPeer(rest, peerId).Some? {
        var i :| 0 <= i < |rest| && rest[i] == FindPeer(peers, peerId).value && rest[i].peerId == peerId
                 && forall j :: 0 <= j < i ==> rest[j].peerId != peerId;
        assert peers[i + 1] == rest[i] && forall j :: 0 <= j < i + 1 ==> peers[j].peerId != peerId;
      } else {
        assert forall i :: 0 < i < |peers| ==> peers[i] == rest[i - 1];
      }
    }
  }

  // --------------------------------------------------------------- what is sent

  /** `kept` differs from `s` only in what it has saved. */
  ghost predicate SavedOnly(s: State, kept: State) {
    kept == s.(settingsReceipts := kept.settingsReceipts, runReceipts := kept.runReceipts,
               offerReceipts := kept.offerReceipts, pendingAddress := kept.pendingAddress)
  }

  lemma BeginSends(s: State, kept: State, m: Mutation)
    requires s.nextCall !in s.calls && SavedOnly(s, kept)
    ensures Sent(s, Begin(kept, m)) == if CanMutate(s) then Some(m) else None
  {
  }

  lemma RestSends(s: State, kept: State)
    requires s.nextCall !in s.calls && SavedOnly(s, kept)
    ensures Sent(s, kept).None?
  {
  }

  ghost predicate SendsAsked(s: State, action: Action, t: State) {
    forall m :: Sent(s, t) == Some(m) <==> CanMutate(s) && Asks(s, action, m)
  }

  ghost function SettingsSaved(s: State, body: SettingsBody, cleared: bool): map<Id, SettingsBody>
    requires s.deviceId.Some?
  {
    if cleared && Settles(Observe(s, body)) then s.settingsReceipts - {s.deviceId.value}
    else s.settingsReceipts[s.deviceId.value := body]
  }

  lemma SendSettingsSends(s: State, body: SettingsBody, cleared: bool)
    requires s.nextCall !in s.calls && CanMutate(s)
    ensures var t := SendSettings(s, body, true, cleared);
            && Sent(s, t) == (if Observe(s, body) == Unknown then Some(ChangeSettings(body)) else None)
            && t.settingsReceipts == SettingsSaved(s, body, cleared)
  {
    hide Observe, Begin;
    var kept := s.(settingsReceipts := s.settingsReceipts[s.deviceId.value := body]);
    ObserveIgnoresStorage(s, kept, body);
    BeginSends(s, kept, ChangeSettings(body));
    BeginStep(kept, ChangeSettings(body));
    RestSends(s, kept);
    RestSends(s, DropSettings(kept, s.deviceId.value, cleared));
    assert kept.settingsReceipts - {s.deviceId.value} == s.settingsReceipts - {s.deviceId.value};
  }

  /** The settings receipts after an action. */
  ghost function SettingsAfter(s: State, action: Action): map<Id, SettingsBody> {
    if !CanMutate(s) then s.settingsReceipts
    else if action.DiscardSettings? then
      if action.cleared then s.settingsReceipts - {s.deviceId.value} else s.settingsReceipts
    else if (action.UpdateSettings? || action.RetrySettings?) && Proposal(s, action).Some? then
      SettingsSaved(s, Proposal(s, action).value, action.cleared)
    else s.settingsReceipts
  }

  /** The run receipts after an action. */
  ghost predicate RunsAfter(s: State, action: Action, runs: map<Id, RunBody>) {
    if !CanMutate(s) then runs == s.runReceipts
    else if action.DiscardRun? then
      runs == if action.cleared then s.runReceipts - {s.deviceId.value} else s.runReceipts
    else
      && (forall body :: AsksRun(s, action, body) ==> runs == s.runReceipts[s.deviceId.value := body])
      && ((forall body :: !AsksRun(s, action, body)) ==> runs == s.runReceipts)
  }

  ghost predicate Exactly(s: State, action: Action, t: State) {
    SendsAsked(s, action, t) && t.settingsReceipts == SettingsAfter(s, action) && RunsAfter(s, action, t.runReceipts)
  }

  /** An action about settings that proposes `Proposal(s, action)`. */
  lemma ProposalSends(s: State, action: Action, t: State)
    requires s.nextCall !in s.calls && (action.UpdateSettings? || action.RetrySettings?)
    requires t.runReceipts == s.runReceipts
    requires if CanMutate(s) && Proposal(s, action).Some? then
               t == SendSettings(s, Proposal(s, action).value, true, action.cleared)
             else t == s
    ensures Exactly(s, action, t)
  {
    hide SendSettings, Observe, Proposal;
    RestSends(s, s);
    if CanMutate(s) && Proposal(s, action).Some? {
      SendSettingsSends(s, Proposal(s, action).value, action.cleared);
    }
  }

  lemma UnstoredSettings(s: State, body: SettingsBody, cleared: bool)
    requires CanMutate(s)
    ensures SendSettings(s, body, false, cleared) == s
    ensures SendSettings(s, body, true, cleared).runReceipts == s.runReceipts
  {
    hide Observe, Begin;
    SendSettingsStep(s, body, true, cleared);
  }

  lemma UpdateSettingsSends(s: State, action: Action)
    requires s.nextCall !in s.calls && action.UpdateSettings?
    ensures Exactly(s, action, DoAct(s, action))
  {
    hide Exactly, SendSettings;
    var link := CurrentLink(s, action.folderId);
    if CanMutate(s) && link.Some? {
      var state := link.value.linkSettings.value;
      if s.deviceId.value in s.settingsReceipts {
        UnstoredSettings(s, s.settingsReceipts[s.deviceId.value], action.cleared);
      } else if state.pendingChange.Some? {
        UnstoredSettings(s, FromRequest(state.pendingChange.value), action.cleared);
      } else {
        UnstoredSettings(s, SettingsBody(action.folderId, action.newId, state.revision, action.settings), action.cleared);
      }
    }
    ProposalSends(s, action, DoAct(s, action));
  }

  lemma RetrySettingsSends(s: State, action: Action)
    requires s.nextCall !in s.calls && action.RetrySettings?
    ensures Exactly(s, action, DoAct(s, action))
  {
    hide Exactly, SendSettings;
    if CanMutate(s) && s.deviceId.value in s.settingsReceipts {
      UnstoredSettings(s, s.settingsReceipts[s.deviceId.value], action.cleared);
    }
    ProposalSends(s, action, DoAct(s, action));
  }

  /** A step that asks for the run `body` and sends it, or asks for none and does nothing. */
  lemma RunSends(s: State, action: Action, t: State, body: RunBody)
    requires s.nextCall !in s.calls && (action.RunNow? || action.RetryRun?)
    requires if CanMutate(s) && AsksRun(s, action, body) then
               t == SendRun(s, body, true) && forall other :: AsksRun(s, action, other) ==> other == body
             else t == s && (CanMutate(s) ==> forall other :: !AsksRun(s, action, other))
    ensures Exactly(s, action, t)
  {
    hide AsksRun, Begin;
    var kept := if s.deviceId.Some? then s.(runReceipts := s.runReceipts[s.deviceId.value := body]) else s;
    RestSends(s, s);
    BeginSends(s, kept, RequestRun(body));
    BeginStep(kept, RequestRun(body));
  }

  lemma RetryRunSends(s: State, action: Action)
    requires s.nextCall !in s.calls && action.RetryRun?
    ensures Exactly(s, action, DoAct(s, action))
  {
    hide Exactly, FreshRun, Begin;
    var device := if s.deviceId.Some? then s.deviceId.value else 0;
    var body := if device in s.runReceipts then s.runReceipts[device] else RunBody(0, 0, 0, 0);
    RunSends(s, action, DoAct(s, action), body);
  }

  lemma RunNowSends(s: State, action: Action)
    requires s.nextCall !in s.calls && action.RunNow?
    ensures Exactly(s, action, DoAct(s, action))
  {
    hide Exactly, Begin;
    var device := if s.deviceId.Some? then s.deviceId.value else 0;
    var link := CurrentLink(s, action.folderId);
    var body :=
      if device in s.runReceipts then s.runReceipts[device]
      else if link.Some? && link.value.linkRun.Some? then
        RunBody(action.folderId, action.newId, link.value.linkRun.value.generation, link.value.linkSettings.value.revision)
      else RunBody(0, 0, 0, 0);
    RunSends(s, action, DoAct(s, action), body);
  }

  lemma AddressSends(s: State, action: Action)
    requires s.nextCall !in s.calls && (action.UpdateAddress? || action.RetryAddress?)
    ensures SendsAsked(s, action, DoAct(s, action))
  {
    hide FindPeer, Begin;
    RestSends(s, s);
    if s.pendingAddress.Some? {
      BeginSends(s, s, MoveAddress(s.pendingAddress.value));
    } else if action.UpdateAddress? && ShownAddress(s, action.peerId).Some? {
      var request := AddressRequest(s.nextCall, action.peerId, ShownAddress(s, action.peerId).value, action.candidate);
      BeginSends(s, s.(pendingAddress := Some(request)), MoveAddress(request));
    }
  }

  lemma OfferSends(s: State, action: Action)
    requires s.nextCall !in s.calls && action.SendOffer?
    ensures SendsAsked(s, action, DoAct(s, action))
  {
    hide Begin;
    RestSends(s, s);
    BeginSends(s, s, Offer(action.offer));
    if s.deviceId.Some? {
      BeginSends(s, s.(offerReceipts := s.offerReceipts[s.deviceId.value := action.offer]), Offer(action.offer));
    }
  }

  lemma OtherSends(s: State, action: Action)
    requires s.nextCall !in s.calls
    requires action.CancelAddress? || action.DiscardOffer? || action.DiscardSettings? || action.DiscardRun? || action.MutatePlainly?
    ensures SendsAsked(s, action, DoAct(s, action))
  {
    hide Begin, Sent;
    RestSends(s, s);
    match action {
      case MutatePlainly(body) => BeginSends(s, s, Plain(body));
      case CancelAddress(_) => RestSends(s, s.(pendingAddress := None));
      case DiscardOffer(cleared) =>
        if s.deviceId.Some? {
          RestSends(s, DropOffer(s, s.deviceId.value, cleared));
        }
      case DiscardSettings(cleared) =>
        if s.deviceId.Some? {
          RestSends(s, DropSettings(s, s.deviceId.value, cleared));
        }
      case DiscardRun(cleared) =>
        if s.deviceId.Some? {
          RestSends(s, DropRun(s, s.deviceId.value, cleared));
        }
    }
  }

  /** Actions other than these leave the settings and run receipts alone. */
  ghost predicate AboutReceipts(action: Action) {
    || action.UpdateSettings? || action.RetrySettings? || action.RunNow? || action.RetryRun?
  }

  lemma UpdateAddressKeeps(s: State, peerId: Id, candidate: string)
    ensures var t := DoUpdateAddress(s, peerId, candidate);
            t.settingsReceipts == s.settingsReceipts && t.runReceipts == s.runReceipts
  {
    hide FindPeer, Begin;
    if s.pendingAddress.Some? {
      BeginStep(s, MoveAddress(s.pendingAddress.value));
    } else if ShownAddress(s, peerId).Some? {
      var request := AddressRequest(s.nextCall, peerId, ShownAddress(s, peerId).value, candidate);
      BeginStep(s.(pendingAddress := Some(request)), MoveAddress(request));
    }
  }

  lemma SameReceiptsAfter(s: State, action: Action)
    requires !AboutReceipts(action) && !action.DiscardSettings? && !action.DiscardRun?
    ensures DoAct(s, action).settingsReceipts == s.settingsReceipts && DoAct(s, action).runReceipts == s.runReceipts
  {
    hide FindPeer, Begin, DoUpdateAddress;
    match action {
      case UpdateAddress(peerId, candidate) => UpdateAddressKeeps(s, peerId, candidate);
      case RetryAddress(_) =>
        if s.pendingAddress.Some? {
          BeginStep(s, MoveAddress(s.pendingAddress.value));
        }
      case SendOffer(offer, _) =>
        BeginStep(s, Offer(offer));
        if s.deviceId.Some? {
          BeginStep(s.(offerReceipts := s.offerReceipts[s.deviceId.value := offer]), Offer(offer));
        }
      case MutatePlainly(body) => BeginStep(s, Plain(body));
      case _ =>
    }
  }

  lemma OtherReceipts(s: State, action: Action)
    requires !AboutReceipts(action)
    ensures DoAct(s, action).settingsReceipts == SettingsAfter(s, action) && RunsAfter(s, action, DoAct(s, action).runReceipts)
  {
    if action.DiscardSettings? || action.DiscardRun? {
    } else {
      hide DoAct;
      SameReceiptsAfter(s, action);
    }
  }

  /** An action sends exactly what it asks for, if the console can send, and saves exactly that. */
  lemma ActionSends(s: State, action: Action)
    requires s.nextCall !in s.calls
    ensures Exactly(s, action, DoAct(s, action))
  {
    hide DoAct, SendsAsked, SettingsAfter, RunsAfter;
    match action {
      case UpdateSettings(_, _, _, _, _) => UpdateSettingsSends(s, action);
      case RetrySettings(_, _) => RetrySettingsSends(s, action);
      case RunNow(_, _, _) => RunNowSends(s, action);
      case RetryRun(_) => RetryRunSends(s, action);
      case UpdateAddress(_, _) =>
        AddressSends(s, action);
        OtherReceipts(s, action);
      case RetryAddress(_) =>
        AddressSends(s, action);
        OtherReceipts(s, action);
      case SendOffer(_, _) =>
        OfferSends(s, action);
        OtherReceipts(s, action);
      case _ =>
        OtherSends(s, action);
        OtherReceipts(s, action);
    }
  }

  // ----------------------------------------------------------------- over runs

  /**
    In every run a request is sent exactly by an action that asks for it while the console is
    unlocked and no mutation is in progress; no other step sends anything. A settings change
    goes out only if the status shown does not know it, a new run only if it allows it, a new
    address change only away from the address shown.
   */
  lemma SentIffAsked(r: Run, i: nat, m: Mutation)
    requires IsRun(r) && i < |r.events|
    ensures var s, e := r.states[i], r.events[i];
            Sent(s, r.states[i + 1]) == Some(m) <==>
              && e.Act? && s.unlocked && s.deviceId.Some? && !s.mutationLocked
              && Asks(s, e.action, m)
  {
    hide Inv, DoAct, DoAnswer, Asks;
    var s, e, t := r.states[i], r.events[i], r.states[i + 1];
    assert IsStep(s, e, t);
    RunInv(r, i);
    if e.Act? {
      NextCallIsNew(s);
      ActionSends(s, e.action);
      assert Sent(s, t) == Some(m) <==> CanMutate(s) && Asks(s, e.action, m);
    } else if Sent(s, t).Some? {
      SentIsRetained(s, e, t);
    }
  }
}
