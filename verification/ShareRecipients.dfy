/**
  `shareRecipients`: the rows shown for one share, first the roster's destinations in
  roster order, then every local invitation that no roster row has claimed.
 */
module ShareRecipients {
  import opened Basics
  import opened FolderStatus

  datatype Row = Row(key: Id, displayName: string, member: Option<Share>)

  const THIS_SERVER := "This server"
  const UNAVAILABLE := "Confirmed paired device unavailable"

  /** The member whose roster is shown: the first that is not removed, else the first. */
  function Representative(members: seq<Share>): (share: Share)
    requires members != []
    ensures share in members && IsRepresentative(members, share)
  {
    var found := FindFirst(members, (m: Share) => m.phase != Removed);
    if found.Some? then found.value else members[0]
  }

  /** The first member that is not removed, or the first of all if every one is. */
  ghost predicate IsRepresentative(members: seq<Share>, share: Share) {
    if share.phase != Removed then IsFirst(members, share, (m: Share) => m.phase != Removed)
    else members != [] && share == members[0] && forall i :: 0 <= i < |members| ==> members[i].phase == Removed
  }

  /** `x` is the first element that satisfies `p`. */
  ghost predicate IsFirst<T>(s: seq<T>, x: T, p: T -> bool) {
    exists i :: 0 <= i < |s| && s[i] == x && p(x) && forall j :: 0 <= j < i ==> !p(s[j])
  }

  function FindFirst<T>(s: seq<T>, p: T -> bool): (r: Option<T>)
    ensures r.Some? ==> IsFirst(s, r.value, p)
    ensures r.None? ==> forall i :: 0 <= i < |s| ==> !p(s[i])
  {
    if s == [] then None
    else if p(s[0]) then Some(s[0])
    else
      var r := FindFirst(s[1..], p);
      assert r.Some? ==> IsFirst(s, r.value, p) by {
        if r.Some? {
          FirstStays(s, r.value, p);
        }
      }
      r
  }

  /** Whether a member stands for a destination of the representative's roster. */
  predicate Matches(share: Share, member: Share, destination: Endpoint, localDeviceId: Id) {
    if share.incoming then member.incoming && destination.deviceId == localDeviceId
    else !member.incoming && member.peerId == destination.deviceId
  }

  ghost predicate IsFirstOrNone<T>(s: seq<T>, found: Option<T>, p: T -> bool) {
    if found.Some? then IsFirst(s, found.value, p) else forall i :: 0 <= i < |s| ==> !p(s[i])
  }

  /**
    The member shown for a destination. Of an outgoing group it is the first outgoing member
    sent to that device; of an incoming group it is, for this device, the first incoming
    member, and for every other device none.
   */
  ghost predicate IsShownFor(share: Share, members: seq<Share>, destination: Endpoint, localDeviceId: Id, found: Option<Share>) {
    if !share.incoming then
      IsFirstOrNone(members, found, (m: Share) => !m.incoming && m.peerId == destination.deviceId)
    else if destination.deviceId == localDeviceId then
      IsFirstOrNone(members, found, (m: Share) => m.incoming)
    else found.None?
  }

  function FindMember(share: Share, members: seq<Share>, destination: Endpoint, localDeviceId: Id): (found: Option<Share>)
    ensures IsShownFor(share, members, destination, localDeviceId, found)
    ensures found.Some? ==> Matches(share, found.value, destination, localDeviceId)
  {
    FindFirst(members, (m: Share) => Matches(share, m, destination, localDeviceId))
  }

  function PeerName(peers: seq<Peer>, peerId: Id): string {
    if peers == [] then UNAVAILABLE
    else if peers[0].peerId == peerId then peers[0].displayName
    else PeerName(peers[1..], peerId)
  }

  function MemberName(status: Status, member: Share, ownName: string): string {
    if member.incoming then (if ownName == "" then THIS_SERVER else ownName)
    else PeerName(status.peers, member.peerId)
  }

  /**
    The name of a member: this server's own for an incoming one, otherwise that of the first
    peer listed with its identifier, and a fixed text if there is none.
   */
  ghost predicate IsNameOf(status: Status, member: Share, ownName: string, name: string) {
    if member.incoming then name == if ownName == "" then "This server" else ownName
    else
      || (exists peer :: IsFirst(status.peers, peer, (p: Peer) => p.peerId == member.peerId) && name == peer.displayName)
      || ((forall i :: 0 <= i < |status.peers| ==> status.peers[i].peerId != member.peerId)
          && name == "Confirmed paired device unavailable")
  }

  lemma {:induction false} PeerNameIsFirst(peers: seq<Peer>, peerId: Id)
    ensures || (exists peer :: IsFirst(peers, peer, (p: Peer) => p.peerId == peerId) && PeerName(peers, peerId) == peer.displayName)
            || ((forall i :: 0 <= i < |peers| ==> peers[i].peerId != peerId) && PeerName(peers, peerId) == UNAVAILABLE)
  {
    var matches := (p: Peer) => p.peerId == peerId;
    if peers != [] {
      if peers[0].peerId == peerId {
        assert IsFirst(peers, peers[0], matches);
      } else {
        PeerNameIsFirst(peers[1..], peerId);
        if peer :| IsFirst(peers[1..], peer, matches) && PeerName(peers[1..], peerId) == peer.displayName {
          FirstStays(peers, peer, matches);
        }
      }
    }
  }

  lemma FirstStays<T>(s: seq<T>, x: T, p: T -> bool)
    requires s != [] && !p(s[0]) && IsFirst(s[1..], x, p)
    ensures IsFirst(s, x, p)
  {
    var i :| 0 <= i < |s[1..]| && s[1..][i] == x && p(x) && forall j :: 0 <= j < i ==> !p(s[1..][j]);
    assert s[i + 1] == x && forall j :: 0 <= j < i + 1 ==> !p(s[j]);
  }

  lemma MemberNameIsRight(status: Status, member: Share, ownName: string)
    ensures IsNameOf(status, member, ownName, MemberName(status, member, ownName))
  {
    PeerNameIsFirst(status.peers, member.peerId);
  }

  ghost function Destinations(share: Share): seq<Endpoint> {
    if share.endpointRoster.Some? then share.endpointRoster.value.destinations else []
  }

  ghost predicate Holds(row: Row, member: Share) {
    row.member == Some(member)
  }

  /** No two rows hold the same member. */
  ghost predicate PlacedAtMostOnce(rows: seq<Row>) {
    forall i, j :: 0 <= i < j < |rows| && rows[i].member.Some? ==> rows[i].member != rows[j].member
  }

  ghost predicate Placed(rows: seq<Row>, member: Share) {
    exists i :: 0 <= i < |rows| && Holds(rows[i], member)
  }

  /** The first rows are the roster's destinations, in order, each with the first member that stands for it. */
  ghost predicate RosterRows(rows: seq<Row>, share: Share, members: seq<Share>, localDeviceId: Id) {
    var destinations := Destinations(share);
    && |destinations| <= |rows|
    && forall i :: 0 <= i < |destinations| ==>
         && rows[i].key == destinations[i].deviceId
         && rows[i].displayName == destinations[i].displayName
         && IsShownFor(share, members, destinations[i], localDeviceId, rows[i].member)
  }

  /** Two destinations never claim the same member, because a roster lists a device once. */
  lemma DestinationsClaimApart(share: Share, m: Share, i: nat, j: nat, localDeviceId: Id)
    requires share.endpointRoster.Some? && ValidRoster(share.endpointRoster.value)
    requires i < j < |Destinations(share)|
    ensures !(Matches(share, m, Destinations(share)[i], localDeviceId) && Matches(share, m, Destinations(share)[j], localDeviceId))
  {
    var r := share.endpointRoster.value;
    var ids := [r.source.deviceId] + DeviceIds(r.destinations);
    assert ids[i + 1] == r.destinations[i].deviceId && ids[j + 1] == r.destinations[j].deviceId;
  }

  /** From `start` on, a row stands for one invitation and is named after it. */
  ghost predicate InvitationRows(rows: seq<Row>, start: nat, status: Status, members: seq<Share>, ownName: string) {
    forall i :: start <= i < |rows| ==>
      && rows[i].member.Some? && rows[i].member.value in members
      && rows[i].key == rows[i].member.value.offerId
      && IsNameOf(status, rows[i].member.value, ownName, rows[i].displayName)
  }

  ghost predicate Within(members: seq<Share>, n: nat, member: Option<Share>) {
    exists a :: 0 <= a < n && a < |members| && Some(members[a]) == member
  }

  ghost predicate Before(members: seq<Share>, x: Option<Share>, y: Option<Share>) {
    exists b :: 0 <= b < |members| && Some(members[b]) == y && Within(members, b, x)
  }

  /** From `start` on, the rows follow the order of the members. */
  ghost predicate InMemberOrder(rows: seq<Row>, start: nat, members: seq<Share>) {
    forall i, j :: start <= i < j < |rows| ==> Before(members, rows[i].member, rows[j].member)
  }

  lemma AppendInOrder(rows: seq<Row>, start: nat, members: seq<Share>, n: nat, row: Row)
    requires InMemberOrder(rows, start, members) && n < |members| && row.member == Some(members[n])
    requires forall i :: start <= i < |rows| ==> Within(members, n, rows[i].member)
    ensures InMemberOrder(rows + [row], start, members)
    ensures forall i :: start <= i < |rows + [row]| ==> Within(members, n + 1, (rows + [row])[i].member)
  {
    WithinGrows(rows, start, members, n);
  }

  lemma WithinGrows(rows: seq<Row>, start: nat, members: seq<Share>, n: nat)
    requires forall i :: start <= i < |rows| ==> Within(members, n, rows[i].member)
    ensures forall i :: start <= i < |rows| ==> Within(members, n + 1, rows[i].member)
  {
  }

  method ListDestinations(share: Share, members: seq<Share>, localDeviceId: Id) returns (rows: seq<Row>)
    requires ConsistentShare(share)
    ensures |rows| == |Destinations(share)|
    ensures RosterRows(rows, share, members, localDeviceId)
    ensures PlacedAtMostOnce(rows)
  {
    var destinations := if share.endpointRoster.Some? then share.endpointRoster.value.destinations else [];
    rows := [];
    for i := 0 to |destinations|
      invariant |rows| == i
      invariant forall k :: 0 <= k < i ==>
                  && rows[k].key == destinations[k].deviceId
                  && rows[k].displayName == destinations[k].displayName
                  && rows[k].member == FindMember(share, members, destinations[k], localDeviceId)
    {
      var d := destinations[i];
      rows := rows + [Row(d.deviceId, d.displayName, FindMember(share, members, d, localDeviceId))];
    }
    forall i, j | 0 <= i < j < |rows| && rows[i].member.Some?
      ensures rows[i].member != rows[j].member
    {
      DestinationsClaimApart(share, rows[i].member.value, i, j, localDeviceId);
    }
  }

  lemma PlacedStays(rows: seq<Row>, extra: seq<Row>, member: Share)
    requires Placed(rows, member)
    ensures Placed(rows + extra, member)
  {
    var i :| 0 <= i < |rows| && Holds(rows[i], member);
    assert Holds((rows + extra)[i], member);
  }

  /** What holds of the rows once the first `n` members have been looked at. */
  ghost predicate Laid(rows: seq<Row>, start: nat, status: Status, members: seq<Share>, ownName: string, n: nat)
    requires n <= |members|
  {
    && start <= |rows|
    && (forall k :: 0 <= k < n ==> Placed(rows, members[k]))
    && InvitationRows(rows, start, status, members, ownName)
    && InMemberOrder(rows, start, members)
    && (forall i :: start <= i < |rows| ==> Within(members, n, rows[i].member))
  }

  lemma LayRow(rows: seq<Row>, start: nat, status: Status, members: seq<Share>, ownName: string, n: nat, name: string)
    requires n < |members| && Laid(rows, start, status, members, ownName, n) && IsNameOf(status, members[n], ownName, name)
    ensures Laid(rows + [Row(members[n].offerId, name, Some(members[n]))], start, status, members, ownName, n + 1)
  {
    hide IsNameOf, Within, Before, Placed;
    var row := Row(members[n].offerId, name, Some(members[n]));
    AppendInOrder(rows, start, members, n, row);
    forall k | 0 <= k < n + 1
      ensures Placed(rows + [row], members[k])
    {
      if k < n {
        PlacedStays(rows, [row], members[k]);
      } else {
        LastIsPlaced(rows, row, members[n]);
      }
    }
  }

  lemma LastIsPlaced(rows: seq<Row>, row: Row, member: Share)
    requires row.member == Some(member)
    ensures Placed(rows + [row], member)
  {
    assert Holds((rows + [row])[|rows|], member);
  }

  lemma SkipMember(rows: seq<Row>, start: nat, status: Status, members: seq<Share>, ownName: string, n: nat)
    requires n < |members| && Laid(rows, start, status, members, ownName, n) && Placed(rows, members[n])
    ensures Laid(rows, start, status, members, ownName, n + 1)
  {
    hide IsNameOf, Within, Before;
    WithinGrows(rows, start, members, n);
  }

  /**
    Every destination once and in roster order, every member in exactly one row, the others
    after the destinations in their own order, and no further row. The source compares members
    by identity; the members of one group have pairwise distinct invitations, so comparing
    their values is the same.
   */
  method Recipients(status: Status, members: seq<Share>, localDeviceId: Id, ownName: string) returns (rows: seq<Row>)
    requires members != [] && Distinct(OfferIds(members))
    requires forall m :: m in members ==> ConsistentShare(m)
    ensures IsRepresentative(members, Representative(members))
    ensures RosterRows(rows, Representative(members), members, localDeviceId)
    ensures forall n :: 0 <= n < |members| ==> Placed(rows, members[n])
    ensures PlacedAtMostOnce(rows)
    ensures InvitationRows(rows, |Destinations(Representative(members))|, status, members, ownName)
    ensures InMemberOrder(rows, |Destinations(Representative(members))|, members)
  {
    hide ConsistentShare, MemberName, Within, Before, IsNameOf, FindMember, Destinations, Representative, IsRepresentative, IsShownFor;
    var share := Representative(members);
    rows := ListDestinations(share, members, localDeviceId);
    ghost var start := |rows|;
    for n := 0 to |members|
      invariant RosterRows(rows, share, members, localDeviceId)
      invariant PlacedAtMostOnce(rows)
      invariant Laid(rows, start, status, members, ownName, n)
    {
      var member := members[n];
      if forall i :: 0 <= i < |rows| ==> rows[i].member != Some(member) {
        MemberNameIsRight(status, member, ownName);
        LayRow(rows, start, status, members, ownName, n, MemberName(status, member, ownName));
        rows := rows + [Row(member.offerId, MemberName(status, member, ownName), Some(member))];
      } else {
        var i :| 0 <= i < |rows| && rows[i].member == Some(member);
        assert Holds(rows[i], member);
        SkipMember(rows, start, status, members, ownName, n);
      }
    }
  }
}
