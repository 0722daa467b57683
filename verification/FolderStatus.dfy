/**
  The folder status a node reports: what `requireStatus` accepts, and what `link` reads
  from an accepted status.

  Identifiers are natural numbers; `NIL` stands for the all-zero UUID. Decoding of
  JSON text into these records is not modelled, so the checks that are left are the
  ones that relate fields to each other.
 */
module FolderStatus {
  import opened Basics

  type Id = nat
  const NIL: Id := 0
  const MAX_SAFE_INTEGER: nat := 0x1F_FFFF_FFFF_FFFF
  const MAX_COLLECTION: nat := 1024
  const MAX_REPLACEMENTS: nat := 128
  const MAX_DESTINATIONS: nat := 128

  datatype Policy = Policy(propagateSourceDeletions: bool, restoreLocalDeletions: bool)
  datatype Cadence = Continuous | Manual | Scheduled(intervalMinutes: nat)
  datatype Settings = Settings(deletionPolicy: Policy, paused: bool, cadence: Cadence, wifiOnly: bool, chargingOnly: bool)

  datatype SettingsRequest = SettingsRequest(
    folderId: Id, sourceId: Id, requesterId: Id, changeId: Id, expectedRevision: nat, settings: Settings)

  datatype SettingsState = SettingsState(
    revision: nat, settings: Settings, changeId: Id, changedBy: Id, confirmed: bool,
    pendingChange: Option<SettingsRequest>, conflictedChange: Option<SettingsRequest>)

  datatype RunPhase = Preparing | Running | Succeeded | Incomplete | InterruptedRun | Cancelled
  datatype LinkRun = LinkRun(generation: nat, phase: Option<RunPhase>, pendingRequest: Option<Id>)

  datatype Endpoint = Endpoint(deviceId: Id, displayName: string)
  datatype Roster = Roster(revision: nat, source: Endpoint, destinations: seq<Endpoint>)

  datatype Phase = Offered | AwaitingCommit | Ready | Paused | Removed

  datatype Share = Share(
    offerId: Id, folderId: Id, folderLabel: string, peerId: Id, incoming: bool,
    linkPolicy: Option<Policy>, linkSettings: Option<SettingsState>, linkRun: Option<LinkRun>,
    endpointRoster: Option<Roster>, phase: Phase, expiresAtUnixMs: Option<int>, expired: bool,
    remoteRemovalPending: bool, supersededOfferIds: seq<Id>)

  datatype Peer = Peer(peerId: Id, displayName: string, address: Option<string>)
  datatype Status = Status(peers: seq<Peer>, shares: seq<Share>)

  // ------------------------------------------------------------------ rosters

  ghost predicate Distinct<T>(s: seq<T>) {
    forall i, j :: 0 <= i < j < |s| ==> s[i] != s[j]
  }

  function DeviceIds(endpoints: seq<Endpoint>): (ids: seq<Id>)
    ensures |ids| == |endpoints|
    ensures forall i :: 0 <= i < |ids| ==> ids[i] == endpoints[i].deviceId
  {
    seq(|endpoints|, i requires 0 <= i < |endpoints| => endpoints[i].deviceId)
  }

  /** What `endpointRoster` guarantees: a bounded, nonempty list naming every device once. */
  ghost predicate ValidRoster(r: Roster) {
    && 0 < |r.destinations| <= MAX_DESTINATIONS
    && r.revision != 0
    && Distinct([r.source.deviceId] + DeviceIds(r.destinations))
  }

  /** Adding one element keeps a sequence distinct exactly when the element is new. */
  lemma DistinctAppend<T>(s: seq<T>, x: T)
    ensures Distinct(s + [x]) <==> Distinct(s) && x !in s
  {
    if Distinct(s + [x]) {
      forall i, j | 0 <= i < j < |s|
        ensures s[i] != s[j]
      {
        assert (s + [x])[i] != (s + [x])[j];
      }
      forall i | 0 <= i < |s|
        ensures s[i] != x
      {
        assert (s + [x])[i] != (s + [x])[|s|];
      }
    }
  }

  method CheckRoster(r: Roster) returns (ok: bool)
    ensures ok <==> ValidRoster(r)
  {
    if |r.destinations| == 0 || |r.destinations| > MAX_DESTINATIONS || r.revision == 0 {
      return false;
    }
    var all := DeviceIds(r.destinations);
    var ids := {r.source.deviceId};
    ghost var listed := [r.source.deviceId];
    for i := 0 to |r.destinations|
      invariant listed == [r.source.deviceId] + all[..i]
      invariant ids == set x | x in listed
      invariant Distinct(listed)
    {
      var id := r.destinations[i].deviceId;
      DistinctAppend(listed, id);
      assert listed + [id] == [r.source.deviceId] + all[..i + 1];
      if id in ids {
        PrefixDistinct([r.source.deviceId] + all, i + 2);
        assert ([r.source.deviceId] + all)[..i + 2] == listed + [id];
        return false;
      }
      ids := ids + {id};
      listed := listed + [id];
    }
    assert all[..|all|] == all;
    return true;
  }

  lemma PrefixDistinct<T>(s: seq<T>, n: nat)
    requires n <= |s|
    ensures Distinct(s) ==> Distinct(s[..n])
  {
  }

  // ----------------------------------------------------------------- statuses

  /** What `linkSettingsState` accepts. */
  ghost predicate ConsistentSettings(state: SettingsState, folderId: Id, policy: Option<Policy>) {
    && (state.revision == 0 <==> state.changeId == NIL)
    && (state.confirmed || state.revision == 0)
    && (state.pendingChange.Some? ==>
          state.pendingChange.value.folderId == folderId && state.pendingChange.value.expectedRevision <= state.revision)
    && (state.conflictedChange.Some? ==>
          state.conflictedChange.value.folderId == folderId && state.conflictedChange.value.expectedRevision <= state.revision)
    && Some(state.settings.deletionPolicy) == policy
  }

  ghost predicate ConsistentShare(share: Share) {
    && share.offerId != NIL
    && |share.supersededOfferIds| <= MAX_REPLACEMENTS
    && (share.remoteRemovalPending ==> share.phase == Removed)
    && (share.expiresAtUnixMs.Some? ==> 0 <= share.expiresAtUnixMs.value <= MAX_SAFE_INTEGER)
    && (share.linkSettings.Some? ==> ConsistentSettings(share.linkSettings.value, share.folderId, share.linkPolicy))
    && (share.linkPolicy.None? <==> share.linkSettings.None?)
    && (share.endpointRoster.Some? ==> ValidRoster(share.endpointRoster.value))
  }

  function OfferIds(shares: seq<Share>): (ids: seq<Id>)
    ensures |ids| == |shares|
    ensures forall i :: 0 <= i < |ids| ==> ids[i] == shares[i].offerId
  {
    seq(|shares|, i requires 0 <= i < |shares| => shares[i].offerId)
  }

  function SupersededIds(shares: seq<Share>): seq<Id> {
    if shares == [] then []
    else SupersededIds(shares[..|shares| - 1]) + shares[|shares| - 1].supersededOfferIds
  }

  /** A member of a one-way link that is still in force. */
  predicate Live(share: Share) {
    share.linkSettings.Some? && share.phase != Removed
  }

  /** The part of a share that describes its link rather than one member of it. */
  datatype LinkData = LinkData(
    folderLabel: string, policy: Option<Policy>, settings: Option<SettingsState>, run: Option<LinkRun>, roster: Option<Roster>)

  function DataOf(share: Share): LinkData {
    LinkData(share.folderLabel, share.linkPolicy, share.linkSettings, share.linkRun, share.endpointRoster)
  }

  /** Two members tell the same of their link. */
  ghost predicate SameLink(a: Share, b: Share) {
    && a.folderLabel == b.folderLabel && a.linkPolicy == b.linkPolicy && a.linkSettings == b.linkSettings
    && a.linkRun == b.linkRun && a.endpointRoster == b.endpointRoster
  }

  /** A share of the folder that has settings and is not removed. */
  ghost predicate IsMember(share: Share, folderId: Id) {
    share.folderId == folderId && share.linkSettings.Some? && share.phase != Removed
  }

  ghost predicate LinksAgree(shares: seq<Share>) {
    forall i, j ::
      0 <= i < j < |shares| && IsMember(shares[i], shares[j].folderId) && IsMember(shares[j], shares[i].folderId) ==>
        SameLink(shares[i], shares[j])
  }

  ghost predicate InvitationsDistinct(shares: seq<Share>) {
    Distinct(OfferIds(shares) + SupersededIds(shares)) && NIL !in SupersededIds(shares)
  }

  /** What `requireStatus` accepts. */
  ghost predicate Acceptable(status: Status) {
    && |status.peers| <= MAX_COLLECTION
    && |status.shares| <= MAX_COLLECTION
    && (forall i :: 0 <= i < |status.shares| ==> ConsistentShare(status.shares[i]))
    && InvitationsDistinct(status.shares)
    && LinksAgree(status.shares)
  }

  method CheckSettings(state: SettingsState, folderId: Id, policy: Option<Policy>) returns (ok: bool)
    ensures ok <==> ConsistentSettings(state, folderId, policy)
  {
    if (state.revision == 0) != (state.changeId == NIL) {
      return false;
    }
    if !state.confirmed && state.revision != 0 {
      return false;
    }
    if policy != Some(state.settings.deletionPolicy) {
      return false;
    }
    var requests := [state.pendingChange, state.conflictedChange];
    for i := 0 to 2
      invariant forall j :: 0 <= j < i && requests[j].Some? ==>
                  requests[j].value.folderId == folderId && requests[j].value.expectedRevision <= state.revision
    {
      if requests[i].Some? && (requests[i].value.folderId != folderId || requests[i].value.expectedRevision > state.revision) {
        return false;
      }
    }
    assert state.pendingChange == requests[0] && state.conflictedChange == requests[1];
    return true;
  }

  method CheckShare(share: Share) returns (ok: bool)
    ensures ok <==> ConsistentShare(share)
  {
    if share.offerId == NIL || |share.supersededOfferIds| > MAX_REPLACEMENTS
       || (share.remoteRemovalPending && share.phase != Removed) {
      return false;
    }
    if share.expiresAtUnixMs.Some? && !(0 <= share.expiresAtUnixMs.value <= MAX_SAFE_INTEGER) {
      return false;
    }
    if share.linkSettings.Some? {
      ok := CheckSettings(share.linkSettings.value, share.folderId, share.linkPolicy);
      if !ok {
        return false;
      }
    }
    if share.linkPolicy.None? != share.linkSettings.None? {
      return false;
    }
    if share.endpointRoster.Some? {
      ok := CheckRoster(share.endpointRoster.value);
    } else {
      ok := true;
    }
  }

  lemma {:induction false} SetSize<T>(s: seq<T>)
    ensures |set x | x in s| <= |s|
    ensures |set x | x in s| == |s| <==> Distinct(s)
  {
    if s == [] {
      assert (set x | x in s) == {};
    } else {
      var front, last := s[..|s| - 1], s[|s| - 1];
      SetSize(front);
      DistinctAppend(front, last);
      assert s == front + [last];
      var all, before := set x | x in s, set x | x in front;
      assert all == before + {last};
      if last in before {
        assert all == before;
      } else {
        assert |all| == |before| + 1;
      }
    }
  }

  /** Adds the identifiers one share has replaced, unless one of them is nil or already there. */
  method AddReplacements(known: set<Id>, replaced: seq<Id>, ghost listed: seq<Id>)
    returns (retained: set<Id>, ok: bool, at: nat)
    requires known == (set id | id in listed) && Distinct(listed)
    ensures ok ==> retained == (set id | id in listed + replaced) && Distinct(listed + replaced) && NIL !in replaced
    ensures !ok ==> at < |replaced| && (replaced[at] == NIL || replaced[at] in listed + replaced[..at])
  {
    retained, ok, at := known, true, 0;
    while at < |replaced|
      invariant at <= |replaced|
      invariant retained == set id | id in listed + replaced[..at]
      invariant Distinct(listed + replaced[..at]) && NIL !in replaced[..at]
    {
      var id := replaced[at];
      DistinctAppend(listed + replaced[..at], id);
      if id == NIL || id in retained {
        return retained, false, at;
      }
      assert listed + replaced[..at + 1] == listed + replaced[..at] + [id];
      retained := retained + {id};
      at := at + 1;
    }
    assert replaced[..at] == replaced;
  }

  /** Accepts exactly the shares whose current and replaced invitations are pairwise distinct. */
  method CheckInvitations(shares: seq<Share>) returns (ok: bool)
    ensures ok <==> InvitationsDistinct(shares)
  {
    var offers := OfferIds(shares);
    var retained := set id | id in offers;
    SetSize(offers);
    if |retained| != |shares| {
      PrefixDistinct(offers + SupersededIds(shares), |offers|);
      assert (offers + SupersededIds(shares))[..|offers|] == offers;
      return false;
    }
    assert offers + SupersededIds(shares[..0]) == offers;
    for i := 0 to |shares|
      invariant retained == set id | id in offers + SupersededIds(shares[..i])
      invariant Distinct(offers + SupersededIds(shares[..i])) && NIL !in SupersededIds(shares[..i])
    {
      var replaced := shares[i].supersededOfferIds;
      var at;
      retained, ok, at := AddReplacements(retained, replaced, offers + SupersededIds(shares[..i]));
      if !ok {
        RejectedInvitation(shares, offers, i, at);
        return false;
      }
      assert shares[..i + 1][..i] == shares[..i];
      assert offers + SupersededIds(shares[..i]) + replaced == offers + SupersededIds(shares[..i + 1]);
    }
    assert shares[..|shares|] == shares;
    return true;
  }

  lemma {:induction false} SupersededPrefix(shares: seq<Share>, n: nat)
    requires n <= |shares|
    ensures SupersededIds(shares[..n]) <= SupersededIds(shares)
    decreases |shares| - n
  {
    if n == |shares| {
      assert shares[..n] == shares;
    } else {
      SupersededPrefix(shares, n + 1);
      assert shares[..n + 1][..n] == shares[..n];
    }
  }

  /** An identifier found to be nil or already present spoils the whole status. */
  lemma RejectedInvitation(shares: seq<Share>, offers: seq<Id>, i: nat, k: nat)
    requires i < |shares| && k < |shares[i].supersededOfferIds| && offers == OfferIds(shares)
    requires var replaced := shares[i].supersededOfferIds;
             replaced[k] == NIL || replaced[k] in offers + SupersededIds(shares[..i]) + replaced[..k]
    ensures !InvitationsDistinct(shares)
  {
    var replaced := shares[i].supersededOfferIds;
    var base := offers + SupersededIds(shares[..i]);
    var all := offers + SupersededIds(shares);
    SupersededPrefix(shares, i + 1);
    assert shares[..i + 1][..i] == shares[..i];
    var n := |base| + k;
    assert SupersededIds(shares[..i + 1]) == SupersededIds(shares[..i]) + replaced;
    assert base + replaced == offers + SupersededIds(shares[..i + 1]);
    assert base + replaced <= all;
    assert all[n] == (base + replaced)[n] == replaced[k];
    if replaced[k] == NIL {
      assert SupersededIds(shares)[n - |offers|] == all[n];
    } else {
      assert all[..n] == (base + replaced)[..n] == base + replaced[..k];
      var m :| 0 <= m < n && all[m] == replaced[k];
    }
  }

  /** The data on record for a folder is that of a member looked at before. */
  ghost predicate ComesFrom(shares: seq<Share>, n: nat, folderId: Id, data: LinkData) {
    exists j :: 0 <= j < n && j < |shares| && IsMember(shares[j], folderId) && DataOf(shares[j]) == data
  }

  /** The first `n` members agree, and the last one seen of each folder is on record. */
  ghost predicate OnRecord(shares: seq<Share>, n: nat, links: map<Id, LinkData>)
    requires n <= |shares|
  {
    && LinksAgree(shares[..n])
    && (forall f :: f in links ==> ComesFrom(shares, n, f, links[f]))
    && (forall j :: 0 <= j < n && Live(shares[j]) ==>
          shares[j].folderId in links && links[shares[j].folderId] == DataOf(shares[j]))
  }

  lemma Disagreement(shares: seq<Share>, i: nat, links: map<Id, LinkData>)
    requires i < |shares| && OnRecord(shares, i, links) && Live(shares[i])
    requires shares[i].folderId in links && links[shares[i].folderId] != DataOf(shares[i])
    ensures !LinksAgree(shares)
  {
    hide LinksAgree;
    assert ComesFrom(shares, i, shares[i].folderId, links[shares[i].folderId]);
    var j :| 0 <= j < i && IsMember(shares[j], shares[i].folderId) && DataOf(shares[j]) == links[shares[i].folderId];
    DifferentLinks(shares, j, i);
  }

  lemma DifferentLinks(shares: seq<Share>, j: nat, i: nat)
    requires j < i < |shares| && IsMember(shares[j], shares[i].folderId) && IsMember(shares[i], shares[j].folderId)
    requires DataOf(shares[j]) != DataOf(shares[i])
    ensures !LinksAgree(shares)
  {
    assert !SameLink(shares[j], shares[i]);
  }

  lemma SkipShare(shares: seq<Share>, i: nat, links: map<Id, LinkData>)
    requires i < |shares| && OnRecord(shares, i, links) && !Live(shares[i])
    ensures OnRecord(shares, i + 1, links)
  {
    hide DataOf;
  }

  lemma RecordShare(shares: seq<Share>, i: nat, links: map<Id, LinkData>)
    requires i < |shares| && OnRecord(shares, i, links) && Live(shares[i])
    requires shares[i].folderId in links ==> links[shares[i].folderId] == DataOf(shares[i])
    ensures OnRecord(shares, i + 1, links[shares[i].folderId := DataOf(shares[i])])
  {
    var share, after := shares[i], links[shares[i].folderId := DataOf(shares[i])];
    forall a, b | 0 <= a < b < i + 1 && IsMember(shares[a], shares[b].folderId) && IsMember(shares[b], shares[a].folderId)
      ensures SameLink(shares[a], shares[b])
    {
      if b == i {
        assert Live(shares[a]) && DataOf(shares[a]) == DataOf(share);
      } else {
        assert shares[..i][a] == shares[a] && shares[..i][b] == shares[b];
      }
    }
    assert ComesFrom(shares, i + 1, share.folderId, DataOf(share));
    forall f | f in links
      ensures ComesFrom(shares, i + 1, f, links[f])
    {
      var j :| 0 <= j < i && IsMember(shares[j], f) && DataOf(shares[j]) == links[f];
    }
  }

  method CheckLinks(shares: seq<Share>) returns (ok: bool)
    ensures ok <==> LinksAgree(shares)
  {
    hide DataOf, LinksAgree;
    var links: map<Id, LinkData> := map[];
    assert OnRecord(shares, 0, links) by { NoLinks(shares[..0]); }
    for i := 0 to |shares|
      invariant OnRecord(shares, i, links)
    {
      var share := shares[i];
      if Live(share) {
        if share.folderId in links && links[share.folderId] != DataOf(share) {
          Disagreement(shares, i, links);
          return false;
        }
        RecordShare(shares, i, links);
        links := links[share.folderId := DataOf(share)];
      } else {
        SkipShare(shares, i, links);
      }
    }
    assert shares[..|shares|] == shares;
    return true;
  }

  lemma NoLinks(shares: seq<Share>)
    ensures shares == [] ==> LinksAgree(shares)
  {
  }

  /** Accepts exactly the statuses whose invitations are distinct and whose links agree. */
  method RequireStatus(status: Status) returns (ok: bool)
    ensures ok <==> Acceptable(status)
  {
    if |status.peers| > MAX_COLLECTION || |status.shares| > MAX_COLLECTION {
      return false;
    }
    for i := 0 to |status.shares|
      invariant forall j :: 0 <= j < i ==> ConsistentShare(status.shares[j])
    {
      ok := CheckShare(status.shares[i]);
      if !ok {
        return false;
      }
    }
    ok := CheckInvitations(status.shares);
    if ok {
      ok := CheckLinks(status.shares);
    }
  }

  /** A share that belongs to this device: as its source, or as one that has asked the source for a change. */
  ghost predicate LocalShare(share: Share, localDeviceId: Option<Id>) {
    && (share.endpointRoster.Some? ==> Some(share.endpointRoster.value.source.deviceId) == SourceOf(share, localDeviceId))
    && (share.linkSettings.Some? ==>
          && (!share.incoming ==> share.linkSettings.value.confirmed)
          && (share.linkSettings.value.pendingChange.Some? ==>
                LocalRequest(share, share.linkSettings.value.pendingChange.value, localDeviceId))
          && (share.linkSettings.value.conflictedChange.Some? ==>
                LocalRequest(share, share.linkSettings.value.conflictedChange.value, localDeviceId)))
  }

  ghost function SourceOf(share: Share, localDeviceId: Option<Id>): Option<Id> {
    if share.incoming then Some(share.peerId) else localDeviceId
  }

  ghost predicate LocalRequest(share: Share, request: SettingsRequest, localDeviceId: Option<Id>) {
    share.incoming && request.sourceId == share.peerId && Some(request.requesterId) == localDeviceId
  }

  /** The body of the loop of `validateLocalLinkSettings`. */
  method CheckLocal(share: Share, localDeviceId: Option<Id>) returns (ok: bool)
    ensures ok <==> LocalShare(share, localDeviceId)
  {
    var sourceId := if share.incoming then Some(share.peerId) else localDeviceId;
    if share.endpointRoster.Some? && Some(share.endpointRoster.value.source.deviceId) != sourceId {
      return false;
    }
    if share.linkSettings.None? {
      return true;
    }
    var state := share.linkSettings.value;
    if !share.incoming && !state.confirmed {
      return false;
    }
    var requests := [state.pendingChange, state.conflictedChange];
    for i := 0 to 2
      invariant forall j :: 0 <= j < i && requests[j].Some? ==> LocalRequest(share, requests[j].value, localDeviceId)
    {
      if requests[i].Some? {
        var request := requests[i].value;
        if !share.incoming || Some(request.sourceId) != sourceId || Some(request.requesterId) != localDeviceId {
          assert requests[0] == state.pendingChange && requests[1] == state.conflictedChange;
          return false;
        }
      }
    }
    assert requests[0] == state.pendingChange && requests[1] == state.conflictedChange;
    return true;
  }

  /** A status this console may show for `localDeviceId`. */
  ghost predicate ValidFor(status: Status, localDeviceId: Option<Id>) {
    && Acceptable(status)
    && forall i :: 0 <= i < |status.shares| ==> LocalShare(status.shares[i], localDeviceId)
  }

  // -------------------------------------------------------------------- links

  /** The first live share of a folder, if there is one. */
  function FindLive(shares: seq<Share>, folderId: Id): (r: Option<Share>)
    ensures r.Some? <==> exists i :: 0 <= i < |shares| && IsMember(shares[i], folderId)
    ensures r.Some? ==> r.value in shares && IsMember(r.value, folderId)
  {
    if shares == [] then None
    else if Live(shares[0]) && shares[0].folderId == folderId then Some(shares[0])
    else
      var r := FindLive(shares[1..], folderId);
      assert forall i :: 0 < i < |shares| ==> shares[i] == shares[1..][i - 1];
      r
  }

  /** `link`: the first live share, provided the source has confirmed it. */
  function Link(status: Status, folderId: Id): Option<Share> {
    var r := FindLive(status.shares, folderId);
    if r.Some? && r.value.linkSettings.value.confirmed then r else None
  }

  lemma AgreeingMembers(shares: seq<Share>, a: Share, b: Share, folderId: Id)
    requires LinksAgree(shares) && a in shares && b in shares
    requires IsMember(a, folderId) && IsMember(b, folderId)
    ensures SameLink(a, b)
  {
    var i :| 0 <= i < |shares| && shares[i] == a;
    var j :| 0 <= j < |shares| && shares[j] == b;
    if i < j {
    } else if j < i {
    }
  }

  /** In an accepted status a link is found exactly if some member says that the source has confirmed it. */
  lemma LinkIsConfirmed(status: Status, folderId: Id)
    requires Acceptable(status)
    ensures Link(status, folderId).Some? <==>
              exists share :: share in status.shares && IsMember(share, folderId) && share.linkSettings.value.confirmed
    ensures Link(status, folderId).Some? ==>
              var share := Link(status, folderId).value;
              share in status.shares && IsMember(share, folderId) && share.linkSettings.value.confirmed
  {
    hide Acceptable, LinksAgree;
    AcceptableLinksAgree(status);
    var found := FindLive(status.shares, folderId);
    forall share | share in status.shares && IsMember(share, folderId)
      ensures found.Some? && SameLink(found.value, share)
    {
      var i :| 0 <= i < |status.shares| && status.shares[i] == share;
      assert IsMember(status.shares[i], folderId);
      AgreeingMembers(status.shares, found.value, share, folderId);
    }
  }

  lemma SameMembers(s: seq<Share>, t: seq<Share>)
    requires multiset(s) == multiset(t)
    ensures forall x :: x in s <==> x in t
  {
    forall x
      ensures x in s <==> x in t
    {
      assert x in s <==> x in multiset(s);
      assert x in t <==> x in multiset(t);
    }
  }

  /**
    In an accepted status the data of a link does not depend on the order in which
    its members are listed: any reordering finds the link too, with the same data.
   */
  lemma LinkIgnoresOrder(status: Status, shares: seq<Share>, folderId: Id)
    requires Acceptable(status)
    requires multiset(status.shares) == multiset(shares)
    ensures var a, b := Link(status, folderId), Link(status.(shares := shares), folderId);
            (a.Some? <==> b.Some?) && (a.Some? ==> SameLink(a.value, b.value))
  {
    hide Acceptable, LinksAgree;
    assert LinksAgree(status.shares) by {
      AcceptableLinksAgree(status);
    }
    SameMembers(status.shares, shares);
    var a, b := FindLive(status.shares, folderId), FindLive(shares, folderId);
    if a.Some? {
      assert a.value in shares;
      assert b.Some?;
    }
    if b.Some? {
      assert b.value in status.shares;
      assert a.Some?;
      AgreeingMembers(status.shares, a.value, b.value, folderId);
    }
  }

  /** What every share of an accepted status satisfies, and every change on record in it. */
  lemma AcceptedShare(status: Status, share: Share)
    requires Acceptable(status) && share in status.shares
    ensures share.offerId != 0 && |share.supersededOfferIds| <= 128
    ensures share.remoteRemovalPending ==> share.phase == Removed
    ensures share.expiresAtUnixMs.Some? ==> 0 <= share.expiresAtUnixMs.value < 0x20_0000_0000_0000
    ensures share.linkPolicy.Some? <==> share.linkSettings.Some?
    ensures share.linkSettings.Some? ==>
              var state := share.linkSettings.value;
              && (state.revision == 0 <==> state.changeId == 0) && (!state.confirmed ==> state.revision == 0)
              && share.linkPolicy == Some(state.settings.deletionPolicy)
              && forall change :: Some(change) == state.pendingChange || Some(change) == state.conflictedChange ==>
                   change.folderId == share.folderId && change.expectedRevision <= state.revision
    ensures forall other :: other in status.shares && other != share ==>
              other.offerId != share.offerId && share.offerId !in other.supersededOfferIds
    ensures share.offerId !in share.supersededOfferIds
  {
    var i :| 0 <= i < |status.shares| && status.shares[i] == share;
    assert ConsistentShare(status.shares[i]);
    forall other | other in status.shares
      ensures other != share ==> other.offerId != share.offerId
      ensures share.offerId !in other.supersededOfferIds
    {
      var j :| 0 <= j < |status.shares| && status.shares[j] == other;
      InvitationsApart(status.shares, i, j);
    }
  }

  lemma InvitationsApart(shares: seq<Share>, i: nat, j: nat)
    requires InvitationsDistinct(shares) && i < |shares| && j < |shares|
    ensures i != j ==> shares[i].offerId != shares[j].offerId
    ensures shares[i].offerId !in shares[j].supersededOfferIds
  {
    var offers, replaced := OfferIds(shares), SupersededIds(shares);
    var all := offers + replaced;
    assert all[i] == shares[i].offerId && all[j] == shares[j].offerId;
    forall k | 0 <= k < |shares[j].supersededOfferIds|
      ensures shares[j].supersededOfferIds[k] != shares[i].offerId
    {
      SupersededPrefix(shares, j + 1);
      assert shares[..j + 1][..j] == shares[..j];
      var n := |SupersededIds(shares[..j])| + k;
      assert replaced[n] == SupersededIds(shares[..j + 1])[n] == shares[j].supersededOfferIds[k];
      assert all[|offers| + n] == replaced[n];
    }
  }

  lemma AcceptableLinksAgree(status: Status)
    requires Acceptable(status)
    ensures LinksAgree(status.shares)
  {
  }
}
