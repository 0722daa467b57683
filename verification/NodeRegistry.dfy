/**
  The process-wide registry of running nodes behind the Android bridge: a
  capacity-bounded handle allocator whose callers release the mutex while a node
  starts or stops.

  `NativeRegistry` is the structure under the mutex, one method per critical section.
  The transition system below it interleaves any number of concurrent starts and stops.
 */
module NodeRegistry {
  import opened Basics

  const MAX_LIVE_NODES: nat := 2
  const U64_MAX: nat := 0xffff_ffff_ffff_ffff

  type Handle = nat
  /** The identity of a started node, by which the registry tells it from any other. */
  type Node = nat

  datatype Registry = Registry(nodes: map<Handle, Node>, grants: set<Handle>, reserved: set<Handle>, nextHandle: nat)

  const EMPTY := Registry(map[], {}, {}, 1)

  predicate CanAllocate(r: Registry) {
    |r.nodes| + |r.reserved| < MAX_LIVE_NODES && r.nextHandle < U64_MAX
  }

  function Allocated(r: Registry): Registry {
    r.(nextHandle := r.nextHandle + 1, reserved := r.reserved + {r.nextHandle})
  }

  function Released(r: Registry, h: Handle): Registry {
    r.(reserved := r.reserved - {h})
  }

  function Published(r: Registry, h: Handle, node: Node, withGrants: bool): Registry {
    r.(reserved := r.reserved - {h}, nodes := r.nodes[h := node], grants := if withGrants then r.grants + {h} else r.grants)
  }

  function Retired(r: Registry, h: Handle): Registry {
    r.(nodes := r.nodes - {h}, grants := r.grants - {h})
  }

  /** What holds under the mutex between any two critical sections. */
  ghost predicate Sound(r: Registry) {
    && |r.nodes| + |r.reserved| <= MAX_LIVE_NODES
    && r.nodes.Keys !! r.reserved
    && r.grants <= r.nodes.Keys
    && 1 <= r.nextHandle <= U64_MAX
    && (forall h :: h in r.nodes || h in r.reserved ==> 0 < h < r.nextHandle)
  }

  class NativeRegistry {
    var nodes: map<Handle, Node>
    var androidSafGrants: set<Handle>
    var reservedHandles: set<Handle>
    var nextHandle: nat

    ghost function View(): Registry
      reads this
    {
      Registry(nodes, androidSafGrants, reservedHandles, nextHandle)
    }

    ghost predicate Valid()
      reads this
    {
      Sound(View())
    }

    constructor ()
      ensures Valid() && View() == EMPTY
    {
      nodes := map[];
      androidSafGrants := {};
      reservedHandles := {};
      nextHandle := 1;
    }

    /** Reserves the next handle, or changes nothing. */
    method AllocateHandle() returns (handle: Option<Handle>)
      requires Valid()
      modifies this
      ensures Valid()
      ensures handle.Some? <==> old(|nodes| + |reservedHandles| < 2 && nextHandle < 0xFFFF_FFFF_FFFF_FFFF)
      ensures handle.Some? ==>
                && handle.value == old(nextHandle) && nextHandle == old(nextHandle) + 1
                && reservedHandles == old(reservedHandles) + {handle.value}
                && nodes == old(nodes) && androidSafGrants == old(androidSafGrants)
      ensures handle.None? ==> View() == old(View())
    {
      if |nodes| + |reservedHandles| >= MAX_LIVE_NODES {
        return None;
      }
      var next := nextHandle;
      if nextHandle == U64_MAX {
        return None;
      }
      nextHandle := nextHandle + 1;
      if next == 0 || next in nodes || next in reservedHandles {
        // A handle below the counter is never the counter.
        assert false;
        return None;
      }
      reservedHandles := reservedHandles + {next};
      return Some(next);
    }

    /** A start that failed gives its reservation back. */
    method ReleaseReservation(handle: Handle)
      requires Valid()
      modifies this
      ensures Valid() && reservedHandles == old(reservedHandles) - {handle}
      ensures nodes == old(nodes) && androidSafGrants == old(androidSafGrants) && nextHandle == old(nextHandle)
    {
      SizeAfterRelease(View(), handle);
      reservedHandles := reservedHandles - {handle};
    }

    /** A start that succeeded turns its reservation into a live node; without one it changes nothing. */
    method Publish(handle: Handle, node: Node, withGrants: bool) returns (ok: bool)
      requires Valid()
      modifies this
      ensures Valid()
      ensures ok == (handle in old(reservedHandles))
      ensures ok ==>
                && nodes == old(nodes)[handle := node] && reservedHandles == old(reservedHandles) - {handle}
                && androidSafGrants == old(androidSafGrants) + (if withGrants then {handle} else {})
                && nextHandle == old(nextHandle)
      ensures !ok ==> View() == old(View())
    {
      if handle !in reservedHandles {
        return false;
      }
      SizeAfterPublish(View(), handle, node);
      reservedHandles := reservedHandles - {handle};
      nodes := nodes[handle := node];
      if withGrants {
        androidSafGrants := androidSafGrants + {handle};
      }
      return true;
    }

    method Lookup(handle: Handle) returns (node: Option<Node>)
      ensures node == if handle in nodes then Some(nodes[handle]) else None
    {
      if handle in nodes {
        return Some(nodes[handle]);
      }
      return None;
    }

    /** After the node has stopped: forget it, unless the handle means another node by now. */
    method Retire(handle: Handle, node: Node)
      requires Valid()
      modifies this
      ensures Valid()
      ensures if handle in old(nodes) && old(nodes)[handle] == node then
                && nodes == old(nodes) - {handle} && androidSafGrants == old(androidSafGrants) - {handle}
                && reservedHandles == old(reservedHandles) && nextHandle == old(nextHandle)
              else View() == old(View())
    {
      if handle in nodes && nodes[handle] == node {
        SizeAfterRetire(View(), handle);
        nodes := nodes - {handle};
        androidSafGrants := androidSafGrants - {handle};
      }
    }
  }

  // ------------------------------------------------------ interleaved callers

  /** A caller between two critical sections. */
  datatype Caller =
    | Starting(handle: Handle)
    | Stopping(handle: Handle, node: Node)

  datatype Result = Running(handle: Handle) | StartFailed | CapacityReached | LostReservation | InvalidHandle | Stopped | StopFailed

  /** `issued` lists every handle ever allocated, and `results` what each finished call returned. */
  datatype System = System(registry: Registry, callers: map<nat, Caller>, made: nat, issued: seq<Handle>, results: seq<Result>)

  const INITIAL := System(EMPTY, map[], 0, [], [])

  datatype Event =
    | BeginStart(caller: nat)
    | FailStart(caller: nat)
    | FinishStart(caller: nat, withGrants: bool)
    | BeginStop(caller: nat, handle: Handle)
    | FailStop(caller: nat)
    | FinishStop(caller: nat)

  predicate Enabled(s: System, e: Event) {
    match e
    case BeginStart(c) => c !in s.callers
    case BeginStop(c, _) => c !in s.callers
    case FailStart(c) => c in s.callers && s.callers[c].Starting?
    case FinishStart(c, _) => c in s.callers && s.callers[c].Starting?
    case FailStop(c) => c in s.callers && s.callers[c].Stopping?
    case FinishStop(c) => c in s.callers && s.callers[c].Stopping?
  }

  function Return(s: System, r: Result): System {
    s.(results := s.results + [r])
  }

  function Next(s: System, e: Event): System
    requires Enabled(s, e)
  {
    match e
    case BeginStart(c) =>
      if CanAllocate(s.registry) then
        var h := s.registry.nextHandle;
        s.(registry := Allocated(s.registry), callers := s.callers[c := Starting(h)], issued := s.issued + [h])
      else Return(s, CapacityReached)
    case FailStart(c) =>
      Return(s.(registry := Released(s.registry, s.callers[c].handle), callers := s.callers - {c}), StartFailed)
    case FinishStart(c, withGrants) =>
      var h := s.callers[c].handle;
      if h in s.registry.reserved then
        Return(s.(registry := Published(s.registry, h, s.made, withGrants), callers := s.callers - {c}, made := s.made + 1), Running(h))
      else Return(s.(callers := s.callers - {c}, made := s.made + 1), LostReservation)
    case BeginStop(c, h) =>
      if h == 0 then Return(s, InvalidHandle)
      else if h in s.registry.nodes then s.(callers := s.callers[c := Stopping(h, s.registry.nodes[h])]) else Return(s, Stopped)
    case FailStop(c) => Return(s.(callers := s.callers - {c}), StopFailed)
    case FinishStop(c) =>
      var h, node := s.callers[c].handle, s.callers[c].node;
      var registry := if h in s.registry.nodes && s.registry.nodes[h] == node then Retired(s.registry, h) else s.registry;
      Return(s.(registry := registry, callers := s.callers - {c}), Stopped)
  }

  predicate SameStart(a: Caller, b: Caller) {
    a.Starting? && b.Starting? && a.handle == b.handle
  }

  /** Every reservation belongs to exactly one start in progress. */
  ghost predicate ReservationsOk(registry: Registry, callers: map<nat, Caller>) {
    && (forall c :: c in callers && callers[c].Starting? ==> callers[c].handle in registry.reserved)
    && (forall c, d :: c in callers && d in callers && SameStart(callers[c], callers[d]) ==> c == d)
    && (forall h :: h in registry.reserved ==> BeingStarted(callers, h))
  }

  ghost predicate BeingStarted(callers: map<nat, Caller>, h: Handle) {
    exists c :: c in callers && callers[c] == Starting(h)
  }

  lemma StartSurvives(callers: map<nat, Caller>, callers': map<nat, Caller>, h: Handle)
    requires BeingStarted(callers, h)
    requires forall c :: c in callers && callers[c] == Starting(h) ==> c in callers' && callers'[c] == Starting(h)
    ensures BeingStarted(callers', h)
  {
    var c :| c in callers && callers[c] == Starting(h);
    assert callers'[c] == Starting(h);
  }

  /** A stop in progress holds the node its handle means, for as long as the handle means one. */
  ghost predicate StopsOk(registry: Registry, callers: map<nat, Caller>) {
    forall c :: c in callers && callers[c].Stopping? ==>
      && 0 < callers[c].handle < registry.nextHandle
      && callers[c].handle !in registry.reserved
      && (callers[c].handle in registry.nodes ==> registry.nodes[callers[c].handle] == callers[c].node)
  }

  ghost predicate IssuedOk(registry: Registry, issued: seq<Handle>) {
    && (forall i :: 0 <= i < |issued| ==> 0 < issued[i] < registry.nextHandle)
    && (forall i, j :: 0 <= i < j < |issued| ==> issued[i] < issued[j])
    && (forall h :: h in registry.nodes || h in registry.reserved ==> h in issued)
  }

  ghost predicate Inv(s: System) {
    && Sound(s.registry)
    && ReservationsOk(s.registry, s.callers)
    && StopsOk(s.registry, s.callers)
    && IssuedOk(s.registry, s.issued)
    && LostReservation !in s.results
  }

  lemma AllocatedIsSound(r: Registry)
    requires Sound(r) && CanAllocate(r)
    ensures Sound(Allocated(r))
  {
  }

  lemma SizeAfterPublish(r: Registry, h: Handle, node: Node)
    requires h in r.reserved && h !in r.nodes
    ensures |r.nodes[h := node]| + |r.reserved - {h}| == |r.nodes| + |r.reserved|
  {
    assert r.nodes[h := node].Keys == r.nodes.Keys + {h};
    assert |r.reserved - {h}| == |r.reserved| - 1;
  }

  lemma SizeAfterRetire(r: Registry, h: Handle)
    ensures |r.nodes - {h}| <= |r.nodes|
  {
    assert (r.nodes - {h}).Keys == r.nodes.Keys - {h};
  }

  lemma SizeAfterRelease(r: Registry, h: Handle)
    ensures |r.reserved - {h}| <= |r.reserved|
  {
  }

  lemma AllocatedReservations(g: Registry, callers: map<nat, Caller>, c: nat)
    requires g.nextHandle !in g.reserved && ReservationsOk(g, callers) && c !in callers
    ensures ReservationsOk(Allocated(g), callers[c := Starting(g.nextHandle)])
  {
    hide BeingStarted;
    var h, after := g.nextHandle, callers[c := Starting(g.nextHandle)];
    assert forall d :: d in after && d != c ==> d in callers && after[d] == callers[d];
    forall k | k in Allocated(g).reserved
      ensures BeingStarted(after, k)
    {
      if k == h {
        NewStart(callers, c, h);
      } else {
        StartSurvives(callers, after, k);
      }
    }
  }

  lemma NewStart(callers: map<nat, Caller>, c: nat, h: Handle)
    ensures BeingStarted(callers[c := Starting(h)], h)
  {
    assert callers[c := Starting(h)][c] == Starting(h);
  }

  lemma NextHandleIsUnused(g: Registry)
    requires Sound(g)
    ensures g.nextHandle !in g.reserved
  {
  }

  lemma AllocatedIssued(g: Registry, issued: seq<Handle>)
    requires Sound(g) && IssuedOk(g, issued)
    ensures IssuedOk(Allocated(g), issued + [g.nextHandle])
  {
    assert (issued + [g.nextHandle])[|issued|] == g.nextHandle;
  }

  lemma AllocatedStops(g: Registry, callers: map<nat, Caller>, c: nat)
    requires StopsOk(g, callers)
    ensures StopsOk(Allocated(g), callers[c := Starting(g.nextHandle)])
  {
  }

  lemma BeginStartKeeps(s: System, c: nat)
    requires Inv(s) && c !in s.callers
    ensures Inv(Next(s, BeginStart(c)))
  {
    hide Sound, ReservationsOk, StopsOk, IssuedOk, Allocated;
    if CanAllocate(s.registry) {
      AllocatedIsSound(s.registry);
      NextHandleIsUnused(s.registry);
      AllocatedReservations(s.registry, s.callers, c);
      AllocatedStops(s.registry, s.callers, c);
      AllocatedIssued(s.registry, s.issued);
    }
  }

  /** A start that ends takes its own reservation with it, and no other. */
  lemma RemainingStarts(g: Registry, after: Registry, callers: map<nat, Caller>, c: nat)
    requires ReservationsOk(g, callers) && c in callers && callers[c].Starting?
    requires after.reserved == g.reserved - {callers[c].handle}
    ensures ReservationsOk(after, callers - {c})
  {
    hide BeingStarted;
    var rest := callers - {c};
    forall d | d in rest && rest[d].Starting?
      ensures rest[d].handle in after.reserved
    {
      assert SameStart(callers[d], callers[c]) ==> d == c;
    }
    forall h | h in after.reserved
      ensures BeingStarted(rest, h)
    {
      StartSurvives(callers, rest, h);
    }
  }

  lemma StartIsReserved(g: Registry, callers: map<nat, Caller>, c: nat)
    requires ReservationsOk(g, callers) && c in callers && callers[c].Starting?
    ensures callers[c].handle in g.reserved
  {
  }

  lemma ReleasedKeeps(g: Registry, callers: map<nat, Caller>, issued: seq<Handle>, c: nat, h: Handle)
    requires Sound(g) && StopsOk(g, callers) && IssuedOk(g, issued)
    ensures Released(g, h).reserved == g.reserved - {h}
    ensures Sound(Released(g, h)) && StopsOk(Released(g, h), callers - {c}) && IssuedOk(Released(g, h), issued)
  {
    SizeAfterRelease(g, h);
  }

  lemma FailStartKeeps(s: System, c: nat)
    requires Inv(s) && Enabled(s, FailStart(c))
    ensures Inv(Next(s, FailStart(c)))
  {
    hide Sound, ReservationsOk, StopsOk, IssuedOk, Released;
    var h := s.callers[c].handle;
    ReleasedKeeps(s.registry, s.callers, s.issued, c, h);
    RemainingStarts(s.registry, Released(s.registry, h), s.callers, c);
  }

  lemma PublishedIsSound(g: Registry, h: Handle, node: Node, withGrants: bool)
    requires Sound(g) && h in g.reserved
    ensures Sound(Published(g, h, node, withGrants)) && Published(g, h, node, withGrants).reserved == g.reserved - {h}
  {
    SizeAfterPublish(g, h, node);
  }

  lemma PublishedStops(g: Registry, callers: map<nat, Caller>, c: nat, h: Handle, node: Node, withGrants: bool)
    requires StopsOk(g, callers) && h in g.reserved
    ensures StopsOk(Published(g, h, node, withGrants), callers - {c})
  {
  }

  lemma PublishedIssued(g: Registry, issued: seq<Handle>, h: Handle, node: Node, withGrants: bool)
    requires IssuedOk(g, issued) && h in g.reserved
    ensures IssuedOk(Published(g, h, node, withGrants), issued)
  {
  }

  lemma FinishStartKeeps(s: System, c: nat, withGrants: bool)
    requires Inv(s) && Enabled(s, FinishStart(c, withGrants))
    ensures Inv(Next(s, FinishStart(c, withGrants)))
  {
    hide Sound, ReservationsOk, StopsOk, IssuedOk, Published;
    var h := s.callers[c].handle;
    StartIsReserved(s.registry, s.callers, c);
    PublishedIsSound(s.registry, h, s.made, withGrants);
    PublishedStops(s.registry, s.callers, c, h, s.made, withGrants);
    PublishedIssued(s.registry, s.issued, h, s.made, withGrants);
    RemainingStarts(s.registry, Published(s.registry, h, s.made, withGrants), s.callers, c);
  }

  /** Starting or ending a stop does not touch the reservations. */
  lemma StopReservations(g: Registry, after: Registry, callers: map<nat, Caller>, callers': map<nat, Caller>)
    requires ReservationsOk(g, callers) && after.reserved == g.reserved
    requires forall c :: c in callers' && callers'[c].Starting? ==> c in callers && callers[c] == callers'[c]
    requires forall c :: c in callers && callers[c].Starting? ==> c in callers' && callers[c] == callers'[c]
    ensures ReservationsOk(after, callers')
  {
    forall h | h in after.reserved
      ensures BeingStarted(callers', h)
    {
      StartSurvives(callers, callers', h);
    }
  }

  lemma RetiredIsSound(g: Registry, h: Handle)
    requires Sound(g)
    ensures Sound(Retired(g, h))
  {
    SizeAfterRetire(g, h);
  }

  lemma RetiredReserved(g: Registry, h: Handle)
    ensures Retired(g, h).reserved == g.reserved
  {
  }

  lemma RetiredStops(g: Registry, callers: map<nat, Caller>, c: nat, h: Handle)
    requires StopsOk(g, callers)
    ensures StopsOk(g, callers - {c}) && StopsOk(Retired(g, h), callers - {c})
  {
  }

  lemma RetiredIssued(g: Registry, issued: seq<Handle>, h: Handle)
    requires IssuedOk(g, issued)
    ensures IssuedOk(Retired(g, h), issued)
  {
  }

  lemma BeginStopKeeps(s: System, c: nat, h: Handle)
    requires Inv(s) && c !in s.callers
    ensures Inv(Next(s, BeginStop(c, h)))
  {
    hide ReservationsOk;
    if h != 0 && h in s.registry.nodes {
      StopReservations(s.registry, s.registry, s.callers, s.callers[c := Stopping(h, s.registry.nodes[h])]);
    }
  }

  lemma FailStopKeeps(s: System, c: nat)
    requires Inv(s) && Enabled(s, FailStop(c))
    ensures Inv(Next(s, FailStop(c)))
  {
    hide ReservationsOk;
    StopReservations(s.registry, s.registry, s.callers, s.callers - {c});
  }

  lemma FinishStopKeeps(s: System, c: nat)
    requires Inv(s) && Enabled(s, FinishStop(c))
    ensures Inv(Next(s, FinishStop(c)))
  {
    hide ReservationsOk, Sound, StopsOk, IssuedOk, Retired;
    var h := s.callers[c].handle;
    RetiredIsSound(s.registry, h);
    RetiredStops(s.registry, s.callers, c, h);
    assert Retired(s.registry, h).reserved == s.registry.reserved by { RetiredReserved(s.registry, h); }
    RetiredIssued(s.registry, s.issued, h);
    StopReservations(s.registry, s.registry, s.callers, s.callers - {c});
    StopReservations(s.registry, Retired(s.registry, h), s.callers, s.callers - {c});
  }

  /** Every critical section of every interleaving keeps the registry sound. */
  lemma NextKeeps(s: System, e: Event)
    requires Inv(s) && Enabled(s, e)
    ensures Inv(Next(s, e))
  {
    hide Inv, Next;
    match e {
      case BeginStart(c) => BeginStartKeeps(s, c);
      case FailStart(c) => FailStartKeeps(s, c);
      case FinishStart(c, withGrants) => FinishStartKeeps(s, c, withGrants);
      case BeginStop(c, h) => BeginStopKeeps(s, c, h);
      case FailStop(c) => FailStopKeeps(s, c);
      case FinishStop(c) => FinishStopKeeps(s, c);
    }
  }

  // --------------------------------------------------------------------- runs

  datatype Run = Run(states: seq<System>, events: seq<Event>)

  ghost predicate IsStep(s: System, e: Event, t: System) {
    Enabled(s, e) && t == Next(s, e)
  }

  ghost predicate IsRun(r: Run) {
    && |r.states| == |r.events| + 1
    && r.states[0] == INITIAL
    && forall i :: 0 <= i < |r.events| ==> IsStep(r.states[i], r.events[i], r.states[i + 1])
  }

  lemma InitialInv()
    ensures Inv(INITIAL)
  {
  }

  lemma {:induction false} RunInv(r: Run, i: nat)
    requires IsRun(r) && i < |r.states|
    ensures Inv(r.states[i])
  {
    hide Next, Inv;
    if i == 0 {
      InitialInv();
    } else {
      RunInv(r, i - 1);
      assert IsStep(r.states[i - 1], r.events[i - 1], r.states[i]);
      NextKeeps(r.states[i - 1], r.events[i - 1]);
    }
  }

  /** Live nodes and reservations never exceed two, never overlap, and only live nodes have grants. */
  lemma CapacityHolds(r: Run, i: nat)
    requires IsRun(r) && i < |r.states|
    ensures var g := r.states[i].registry;
            |g.nodes| + |g.reserved| <= 2 && g.nodes.Keys !! g.reserved && g.grants <= g.nodes.Keys
  {
    hide IsRun;
    RunInv(r, i);
  }

  /** Handles are nonzero, strictly increasing over the whole run and so never reused. */
  lemma HandlesAreNeverReused(r: Run, i: nat, a: nat, b: nat)
    requires IsRun(r) && i < |r.states| && a < b < |r.states[i].issued|
    ensures 0 < r.states[i].issued[a] < r.states[i].issued[b]
  {
    hide IsRun;
    RunInv(r, i);
  }

  /** No start ever finds its reservation gone, and only starts in progress hold one. */
  lemma ReservationsAreNeverLost(r: Run, i: nat)
    requires IsRun(r) && i < |r.states|
    ensures var s := r.states[i];
            && LostReservation !in s.results
            && (forall h :: h in s.registry.reserved <==> BeingStarted(s.callers, h))
  {
    hide IsRun;
    RunInv(r, i);
    var s := r.states[i];
    forall h | BeingStarted(s.callers, h)
      ensures h in s.registry.reserved
    {
      var c :| c in s.callers && s.callers[c] == Starting(h);
      assert s.callers[c].Starting?;
    }
  }

  /** A stop that finishes never removes another caller's node: the identity check cannot fail. */
  lemma StopRemovesItsOwnNode(r: Run, i: nat, c: nat)
    requires IsRun(r) && i < |r.states| && c in r.states[i].callers && r.states[i].callers[c].Stopping?
    ensures var s := r.states[i];
            s.callers[c].handle in s.registry.nodes ==> s.registry.nodes[s.callers[c].handle] == s.callers[c].node
  {
    hide IsRun;
    RunInv(r, i);
  }

  /** A start that finishes leaves its node live under its handle, and releases its reservation. */
  lemma FinishedStartIsLive(r: Run, i: nat)
    requires IsRun(r) && i < |r.events| && r.events[i].FinishStart? && r.events[i].caller in r.states[i].callers
    requires r.states[i].callers[r.events[i].caller].Starting?
    ensures var h, g := r.states[i].callers[r.events[i].caller].handle, r.states[i + 1].registry;
            && h in g.nodes && h !in g.reserved && g.nodes[h] == r.states[i].made
            && (h in g.grants <==> r.events[i].withGrants)
            && (forall k :: k != h ==> (k in g.nodes <==> k in r.states[i].registry.nodes))
            && r.states[i + 1].results == r.states[i].results + [Running(h)]
  {
    hide ReservationsOk, StopsOk, IssuedOk;
    RunInv(r, i);
    assert IsStep(r.states[i], r.events[i], r.states[i + 1]);
    StartHasReservation(r.states[i], r.events[i].caller);
  }

  lemma StartHasReservation(s: System, c: nat)
    requires Inv(s) && c in s.callers && s.callers[c].Starting?
    ensures s.callers[c].handle in s.registry.reserved && s.callers[c].handle !in s.registry.nodes
  {
  }

  /** A stop that finishes leaves no node under its handle, and touches no other. */
  lemma FinishedStopLeavesNoNode(r: Run, i: nat)
    requires IsRun(r) && i < |r.events| && r.events[i].FinishStop? && r.events[i].caller in r.states[i].callers
    requires r.states[i].callers[r.events[i].caller].Stopping?
    ensures var h, g := r.states[i].callers[r.events[i].caller].handle, r.states[i + 1].registry;
            && h !in g.nodes && h !in g.grants && g.reserved == r.states[i].registry.reserved
            && (forall k :: k != h ==> (k in g.nodes <==> k in r.states[i].registry.nodes))
  {
    hide ReservationsOk, IssuedOk;
    RunInv(r, i);
    assert IsStep(r.states[i], r.events[i], r.states[i + 1]);
    StopRemovesItsOwnNode(r, i, r.events[i].caller);
  }

  /** A start gets a new handle exactly if two nodes are neither live nor being started and handles are left. */
  lemma StartGetsHandleIffRoom(r: Run, i: nat)
    requires IsRun(r) && i < |r.events| && r.events[i].BeginStart?
    ensures var s, t, c := r.states[i], r.states[i + 1], r.events[i].caller;
            if |s.registry.nodes| + |s.registry.reserved| < 2 && s.registry.nextHandle < 0xFFFF_FFFF_FFFF_FFFF then
              && t.callers == s.callers[c := Starting(s.registry.nextHandle)] && t.results == s.results
              && t.registry.reserved == s.registry.reserved + {s.registry.nextHandle}
              && t.registry.nodes == s.registry.nodes && t.registry.nextHandle == s.registry.nextHandle + 1
              && t.issued == s.issued + [s.registry.nextHandle]
            else t == s.(results := s.results + [CapacityReached])
  {
    assert IsStep(r.states[i], r.events[i], r.states[i + 1]);
  }

  /** While one node is being started and none is live, there is room for a second. */
  lemma OneStartLeavesRoom(r: Run, i: nat, c: nat)
    requires IsRun(r) && i < |r.states| && c in r.states[i].callers && r.states[i].callers[c].Starting?
    requires forall d :: d in r.states[i].callers && r.states[i].callers[d].Starting? ==> d == c
    requires r.states[i].registry.nodes == map[]
    ensures |r.states[i].registry.nodes| + |r.states[i].registry.reserved| == 1
  {
    hide IsRun, Sound, StopsOk, IssuedOk;
    RunInv(r, i);
    var s := r.states[i];
    var h := s.callers[c].handle;
    assert s.registry.reserved == {h} by {
      forall k | k in s.registry.reserved
        ensures k == h
      {
        assert BeingStarted(s.callers, k);
      }
    }
  }

  /** A stop finds the node its handle means at that moment; a failed one leaves everything in place. */
  lemma StopFindsItsNode(r: Run, i: nat)
    requires IsRun(r) && i < |r.events|
    ensures var s, e, t := r.states[i], r.events[i], r.states[i + 1];
            && (e.BeginStop? ==>
                  t == if e.handle == 0 then s.(results := s.results + [InvalidHandle])
                       else if e.handle in s.registry.nodes then
                         s.(callers := s.callers[e.caller := Stopping(e.handle, s.registry.nodes[e.handle])])
                       else s.(results := s.results + [Stopped]))
            && (e.FailStop? ==> t.registry == s.registry && t.results == s.results + [StopFailed])
  {
    assert IsStep(r.states[i], r.events[i], r.states[i + 1]);
  }

  /** With no start in progress, a start is refused only by two live nodes or by exhausted handles. */
  lemma FailedStartsFreeCapacity(r: Run, i: nat)
    requires IsRun(r) && i < |r.states|
    requires forall c :: c in r.states[i].callers ==> !r.states[i].callers[c].Starting?
    ensures var g := r.states[i].registry;
            && g.reserved == {}
            && (!(|g.nodes| + |g.reserved| < 2 && g.nextHandle < 0xFFFF_FFFF_FFFF_FFFF) <==>
                  |g.nodes| == 2 || g.nextHandle == 0xFFFF_FFFF_FFFF_FFFF)
  {
    hide IsRun;
    RunInv(r, i);
    assert forall h :: h !in r.states[i].registry.reserved;
  }
}
