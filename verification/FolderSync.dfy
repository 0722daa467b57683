/**
  The folder-sync coordinator as a transition system.

  One step is one uninterrupted stretch of the console's JavaScript: a user action or
  timer up to the next network call, or the delivery of one answer through every
  continuation it wakes. Any number of network calls may be outstanding; the server
  acts on them, and their answers arrive or fail, in any order.

  `State` holds the coordinator's variables and its session storage, then the network,
  and last three history variables that no step reads to decide what to do: the
  provenance kept with the shown status, `ackedAt` and `shownAt`. The server's clock
  ticks with everything the server does, so a later tick is a later server state.
 */
module FolderSync {
  import opened Basics
  import opened FolderStatus

  datatype SettingsBody = SettingsBody(folderId: Id, changeId: Id, expectedRevision: nat, settings: Settings)
  datatype RunBody = RunBody(folderId: Id, requestId: Id, expectedGeneration: nat, settingsRevision: nat)
  datatype AddressRequest = AddressRequest(serial: nat, peerId: Id, expectedAddress: string, candidateAddress: string)
  datatype OfferBody = OfferBody(peerId: Id, folderId: Id, folderLabel: string, policy: Policy)

  datatype Mutation =
    | ChangeSettings(settings: SettingsBody)
    | RequestRun(run: RunBody)
    | MoveAddress(address: AddressRequest)
    | Offer(offer: OfferBody)
    | Plain(body: nat)  // accept, renew, legacy pause, remove, retry

  /** Why a network call was made, with what its continuation remembers. */
  datatype Purpose =
    | Poll(generation: nat)
    | Post(mutation: Mutation)
    | Confirm(address: AddressRequest)
    | Reload(generation: nat)

  /** An outstanding call; `served` is the server's clock when it acted on it. */
  datatype Call = Call(purpose: Purpose, device: Id, epoch: nat, served: Option<nat>)

  /** A shown status: when the server produced it, and for which access it was requested. */
  datatype Shown = Shown(status: Status, asOf: nat, device: Id, epoch: nat)

  datatype State = State(
    deviceId: Option<Id>,
    unlocked: bool,
    pollingEnabled: bool,
    mutationLocked: bool,
    generation: nat,
    accessEpoch: nat,
    current: Option<Shown>,
    pendingAddress: Option<AddressRequest>,
    settingsReceipts: map<Id, SettingsBody>,
    runReceipts: map<Id, RunBody>,
    offerReceipts: map<Id, OfferBody>,
    calls: map<nat, Call>,
    nextCall: nat,
    clock: nat,
    ackedAt: nat,
    shownAt: nat)

  const INITIAL := State(None, false, false, false, 0, 0, None, None, map[], map[], map[], map[], 0, 0, 0, 0)

  datatype Code = Busy | SettingsConflict | RunConflict | RunPending | AddressChanged | OtherError

  datatype Reply = Accepted | Reported(status: Status) | Refused(code: Code)

  /** What the user can ask for; `stored` and `cleared` say whether the browser's storage did as it was told. */
  datatype Action =
    | UpdateSettings(folderId: Id, settings: Settings, newId: Id, stored: bool, cleared: bool)
    | RetrySettings(stored: bool, cleared: bool)
    | DiscardSettings(cleared: bool)
    | RunNow(folderId: Id, newId: Id, stored: bool)
    | RetryRun(stored: bool)
    | DiscardRun(cleared: bool)
    | UpdateAddress(peerId: Id, candidate: string)
    | RetryAddress(peerId: Id)
    | CancelAddress(peerId: Id)
    | SendOffer(offer: OfferBody, stored: bool)
    | DiscardOffer(cleared: bool)
    | MutatePlainly(body: nat)

  datatype Event =
    | SetAccess(device: Option<Id>, unlock: bool)
    | SetPolling(enabled: bool)
    | Refresh
    | Act(action: Action)
    | Serve(call: nat)
    | Answer(call: nat, reply: Reply, cleared: bool)

  // -------------------------------------------------------------- small steps

  function DoSetAccess(s: State, device: Option<Id>, unlock: bool): State {
    s.(generation := s.generation + 1, accessEpoch := s.accessEpoch + 1, current := None, pendingAddress := None,
       deviceId := device, unlocked := unlock && device.Some?)
  }

  function DoSetPolling(s: State, enabled: bool): State {
    s.(pollingEnabled := enabled, generation := if enabled then s.generation else s.generation + 1)
  }

  predicate CanRefresh(s: State) {
    s.unlocked && s.deviceId.Some? && s.pollingEnabled && !s.mutationLocked
  }

  function DoRefresh(s: State): State {
    if CanRefresh(s) then
      Issue(s.(generation := s.generation + 1), Poll(s.generation + 1), s.deviceId.value, s.accessEpoch)
    else s
  }

  function DoServe(s: State, id: nat): State
    requires id in s.calls
  {
    s.(clock := s.clock + 1, calls := s.calls[id := s.calls[id].(served := Some(s.clock + 1))])
  }

  predicate CanMutate(s: State) {
    s.unlocked && s.deviceId.Some? && !s.mutationLocked
  }

  function Issue(s: State, purpose: Purpose, device: Id, epoch: nat): State {
    s.(calls := s.calls[s.nextCall := Call(purpose, device, epoch, None)], nextCall := s.nextCall + 1)
  }

  /** The opening of `mutate`: take the lock, invalidate status reads, send the request. */
  function Begin(s: State, m: Mutation): State {
    if CanMutate(s) then
      Issue(s.(mutationLocked := true, generation := s.generation + 1), Post(m), s.deviceId.value, s.accessEpoch)
    else s
  }

  function CurrentLink(s: State, folderId: Id): Option<Share> {
    if s.current.None? then None else Link(s.current.value.status, folderId)
  }

  datatype Observation = Applied | Pending | Conflict | Stale | Unknown | NoLink

  function FromRequest(r: SettingsRequest): SettingsBody {
    SettingsBody(r.folderId, r.changeId, r.expectedRevision, r.settings)
  }

  /** What the shown status says about one settings change of this device. */
  function Observe(s: State, body: SettingsBody): Observation {
    var link := CurrentLink(s, body.folderId);
    if link.None? then NoLink
    else
      var state := link.value.linkSettings.value;
      if state.changeId == body.changeId && Some(state.changedBy) == s.deviceId
         && body.expectedRevision + 1 == state.revision && state.settings == body.settings then Applied
      else if state.pendingChange.Some? && FromRequest(state.pendingChange.value) == body then Pending
      else if state.conflictedChange.Some? && FromRequest(state.conflictedChange.value) == body then Conflict
      else if state.revision != body.expectedRevision then Stale
      else Unknown
  }

  function DropSettings(s: State, device: Id, cleared: bool): State {
    if cleared then s.(settingsReceipts := s.settingsReceipts - {device}) else s
  }

  function DropRun(s: State, device: Id, cleared: bool): State {
    if cleared then s.(runReceipts := s.runReceipts - {device}) else s
  }

  function DropOffer(s: State, device: Id, cleared: bool): State {
    if cleared then s.(offerReceipts := s.offerReceipts - {device}) else s
  }

  function SendSettings(s: State, body: SettingsBody, stored: bool, cleared: bool): State
    requires CanMutate(s)
  {
    if !stored then s
    else
      var device := s.deviceId.value;
      var kept := s.(settingsReceipts := s.settingsReceipts[device := body]);
      match Observe(kept, body)
      case Applied => DropSettings(kept, device, cleared)
      case Pending => DropSettings(kept, device, cleared)
      case Conflict => DropSettings(kept, device, cleared)
      case Stale => kept
      case NoLink => kept
      case Unknown => Begin(kept, ChangeSettings(body))
  }

  function DoUpdateSettings(s: State, folderId: Id, settings: Settings, newId: Id, stored: bool, cleared: bool): State {
    var link := CurrentLink(s, folderId);
    if !CanMutate(s) || link.None? then s
    else
      var state := link.value.linkSettings.value;
      if s.deviceId.value in s.settingsReceipts then
        var saved := s.settingsReceipts[s.deviceId.value];
        if saved.folderId != folderId || saved.settings != settings then s
        else SendSettings(s, saved, stored, cleared)
      else if state.pendingChange.Some? then
        if state.pendingChange.value.settings != settings then s
        else SendSettings(s, FromRequest(state.pendingChange.value), stored, cleared)
      else SendSettings(s, SettingsBody(folderId, newId, state.revision, settings), stored, cleared)
  }

  function SendRun(s: State, body: RunBody, stored: bool): State
    requires CanMutate(s)
  {
    if !stored then s
    else Begin(s.(runReceipts := s.runReceipts[s.deviceId.value := body]), RequestRun(body))
  }

  function DoRunNow(s: State, folderId: Id, newId: Id, stored: bool): State {
    var link := CurrentLink(s, folderId);
    if !CanMutate(s) || link.None? then s
    else if s.deviceId.value in s.runReceipts then
      var saved := s.runReceipts[s.deviceId.value];
      if saved.folderId != folderId then s else SendRun(s, saved, stored)
    else if link.value.linkSettings.value.settings.paused || link.value.linkRun.None? then s
    else
      var run := link.value.linkRun.value;
      if run.pendingRequest.Some? || run.phase == Some(Preparing) || run.phase == Some(Running) then s
      else SendRun(s, RunBody(folderId, newId, run.generation, link.value.linkSettings.value.revision), stored)
  }

  function FindPeer(peers: seq<Peer>, peerId: Id): Option<Peer> {
    if peers == [] then None
    else if peers[0].peerId == peerId then Some(peers[0])
    else FindPeer(peers[1..], peerId)
  }

  function DoUpdateAddress(s: State, peerId: Id, candidate: string): State {
    if s.pendingAddress.Some? then
      var saved := s.pendingAddress.value;
      if saved.peerId != peerId || saved.candidateAddress != candidate then s
      else Begin(s, MoveAddress(saved))
    else if s.current.None? then s
    else
      var peer := FindPeer(s.current.value.status.peers, peerId);
      if peer.None? || peer.value.address.None? || peer.value.address == Some(candidate) || !CanMutate(s) then s
      else
        var request := AddressRequest(s.nextCall, peerId, peer.value.address.value, candidate);
        Begin(s.(pendingAddress := Some(request)), MoveAddress(request))
  }

  function DoSendOffer(s: State, offer: OfferBody, stored: bool): State {
    if !s.unlocked || s.deviceId.None? then s
    else
      var device := s.deviceId.value;
      if device in s.offerReceipts then
        if s.offerReceipts[device] != offer then s else Begin(s, Offer(offer))
      else if !stored then s
      else Begin(s.(offerReceipts := s.offerReceipts[device := offer]), Offer(offer))
  }

  // ------------------------------------------------------------------ answers

  function Max(a: nat, b: nat): nat {
    if a < b then b else a
  }

  /** Replaces the shown status by one that `call` asked for. */
  function Show(s: State, call: Call, status: Status): State
    requires call.served.Some?
  {
    s.(current := Some(Shown(status, call.served.value, call.device, call.epoch)), shownAt := call.served.value)
  }

  function AnswerPoll(s: State, call: Call, reply: Reply, valid: bool): State
    requires call.purpose.Poll? && (reply.Reported? ==> call.served.Some?)
  {
    if reply.Reported? && valid && call.purpose.generation == s.generation
       && s.unlocked && s.pollingEnabled && !s.mutationLocked then
      var shown := Show(s, call, reply.status);
      if s.pendingAddress.Some? && FindPeer(reply.status.peers, s.pendingAddress.value.peerId).None? then
        shown.(pendingAddress := None)
      else shown
    else s
  }

  /** The server refused the old address: forget the request, then reload the status. */
  function AddressConflict(s: State, call: Call, request: AddressRequest): State {
    if s.accessEpoch != call.epoch then s
    else
      var forgotten := s.(
        pendingAddress := if s.pendingAddress == Some(request) then None else s.pendingAddress,
        current := None,
        generation := s.generation + 1);
      Issue(forgotten, Reload(forgotten.generation), call.device, call.epoch)
  }

  function AnswerAccepted(s: State, call: Call, cleared: bool): State
    requires call.purpose.Post? && call.served.Some?
  {
    var ackedAt := Max(s.ackedAt, call.served.value);
    var released := s.(ackedAt := ackedAt, mutationLocked := false);
    if !s.unlocked || s.deviceId != Some(call.device) then released
    else
      match call.purpose.mutation
      case ChangeSettings(_) => DropSettings(released, call.device, cleared)
      case RequestRun(_) => DropRun(released, call.device, cleared)
      case Offer(_) => DropOffer(released, call.device, cleared)
      case Plain(_) => released
      case MoveAddress(request) =>
        if s.accessEpoch != call.epoch then released
        else Issue(s.(ackedAt := ackedAt), Confirm(request), call.device, call.epoch)
  }

  function AnswerRefused(s: State, call: Call, code: Code, cleared: bool): State
    requires call.purpose.Post?
  {
    var released := s.(mutationLocked := false);
    match call.purpose.mutation
    case RequestRun(_) =>
      if code == RunConflict || code == RunPending then DropRun(released, call.device, cleared) else released
    case MoveAddress(request) =>
      if code == AddressChanged then AddressConflict(released, call, request) else released
    case _ => released
  }

  function AnswerConfirm(s: State, call: Call, reply: Reply, valid: bool): State
    requires call.purpose.Confirm? && (reply.Reported? ==> call.served.Some?)
  {
    var request := call.purpose.address;
    var released := s.(mutationLocked := false);
    match reply
    case Refused(AddressChanged) => AddressConflict(released, call, request)
    case Reported(status) =>
      if !valid || !s.unlocked || s.deviceId != Some(call.device) || s.accessEpoch != call.epoch then released
      else
        var shown := Show(released, call, status);
        var peer := FindPeer(status.peers, request.peerId);
        if peer.Some? && peer.value.address == Some(request.candidateAddress) && s.pendingAddress == Some(request) then
          shown.(pendingAddress := None)
        else shown
    case _ => released
  }

  function AnswerReload(s: State, call: Call, reply: Reply, valid: bool): State
    requires call.purpose.Reload? && (reply.Reported? ==> call.served.Some?)
  {
    if reply.Reported? && valid && s.unlocked && s.deviceId == Some(call.device) && s.accessEpoch == call.epoch
       && s.generation == call.purpose.generation && !s.mutationLocked then
      Show(s, call, reply.status)
    else s
  }

  /** An answer the environment can give: only a served call has a result. */
  predicate Deliverable(s: State, call: nat, reply: Reply) {
    && call in s.calls
    && match reply
       case Refused(_) => true
       case Accepted => s.calls[call].served.Some? && s.calls[call].purpose.Post?
       case Reported(_) => s.calls[call].served.Some? && !s.calls[call].purpose.Post?
  }

  ghost function DoAnswer(s: State, id: nat, reply: Reply, cleared: bool): State
    requires Deliverable(s, id, reply)
  {
    var call := s.calls[id];
    var rest := s.(calls := s.calls - {id});
    var valid := reply.Reported? && ValidFor(reply.status, s.deviceId);
    match call.purpose
    case Poll(_) => AnswerPoll(rest, call, reply, valid)
    case Post(_) => if reply.Accepted? then AnswerAccepted(rest, call, cleared) else AnswerRefused(rest, call, reply.code, cleared)
    case Confirm(_) => AnswerConfirm(rest, call, reply, valid)
    case Reload(_) => AnswerReload(rest, call, reply, valid)
  }

  // --------------------------------------------------------------- transitions

  predicate Enabled(s: State, e: Event) {
    match e
    case Serve(id) => id in s.calls && s.calls[id].served.None?
    case Answer(id, reply, _) => Deliverable(s, id, reply)
    case _ => true
  }

  function DoAct(s: State, action: Action): State {
    match action
    case UpdateSettings(folderId, settings, newId, stored, cleared) =>
      DoUpdateSettings(s, folderId, settings, newId, stored, cleared)
    case RetrySettings(stored, cleared) =>
      if CanMutate(s) && s.deviceId.value in s.settingsReceipts then
        SendSettings(s, s.settingsReceipts[s.deviceId.value], stored, cleared)
      else s
    case DiscardSettings(cleared) => if CanMutate(s) then DropSettings(s, s.deviceId.value, cleared) else s
    case RunNow(folderId, newId, stored) => DoRunNow(s, folderId, newId, stored)
    case RetryRun(stored) =>
      if CanMutate(s) && s.deviceId.value in s.runReceipts then SendRun(s, s.runReceipts[s.deviceId.value], stored) else s
    case DiscardRun(cleared) => if CanMutate(s) then DropRun(s, s.deviceId.value, cleared) else s
    case UpdateAddress(peerId, candidate) => DoUpdateAddress(s, peerId, candidate)
    case RetryAddress(peerId) =>
      if s.pendingAddress.Some? && s.pendingAddress.value.peerId == peerId then
        Begin(s, MoveAddress(s.pendingAddress.value))
      else s
    case CancelAddress(peerId) =>
      if s.pendingAddress.Some? && s.pendingAddress.value.peerId == peerId then s.(pendingAddress := None) else s
    case SendOffer(offer, stored) => DoSendOffer(s, offer, stored)
    case DiscardOffer(cleared) => if s.unlocked && s.deviceId.Some? then DropOffer(s, s.deviceId.value, cleared) else s
    case MutatePlainly(body) => Begin(s, Plain(body))
  }

  ghost function Next(s: State, e: Event): State
    requires Enabled(s, e)
  {
    match e
    case SetAccess(device, unlock) => DoSetAccess(s, device, unlock)
    case SetPolling(enabled) => DoSetPolling(s, enabled)
    case Refresh => DoRefresh(s)
    case Act(action) => DoAct(s, action)
    case Serve(id) => DoServe(s, id)
    case Answer(id, reply, cleared) => DoAnswer(s, id, reply, cleared)
  }
}
