/**
 * `ComputeDevice::launch_kernel` (taichi/backends/device.cpp): running a
 * kernel whose SNodes may live on other devices. The protocol has five
 * phases over the SNode mapping, each a pass in the mapping's iteration order:
 *   1. every foreign range gets a local buffer, either an alias or a fresh
 *      allocation filled by a transfer;
 *   2. this device waits for every foreign source;
 *   3. the kernel runs on the local mapping;
 *   4. every local buffer of a foreign range is copied back unless it is an
 *      alias, and is then deallocated;
 *   5. every foreign device waits for this one.
 * The device operations are virtual calls with no body here: each becomes an
 * event in a trace, and the answers of `get_local_alias`, `allocate_memory`
 * and `is_alias` come from oracle functions.
 */
module Launch {
  import opened Wrappers
  import opened DeviceTypes

  /** One entry of an `SNodeMapping`; a mapping is a sequence of entries in iteration order. */
  datatype Entry = Entry(snode: int, range: DeviceRange)

  /** An `unordered_map` holds each SNode id once. */
  predicate DistinctKeys(ms: seq<Entry>)
  {
    forall i, j :: 0 <= i < j < |ms| ==> ms[i].snode != ms[j].snode
  }

  /** An entry whose memory lives on another device than `id`. */
  predicate IsForeign(id: U32, e: Entry)
  {
    e.range.base.devId != id
  }

  /** A call made during a launch; `dev` is the id of the device that handles it. */
  datatype Event =
    | GetLocalAlias(dev: U32, remote: DeviceRange)
    | Allocate(dev: U32, memType: MemoryType, size: U64, result: DevicePtr)
    | Transfer(dev: U32, dst: DevicePtr, src: DeviceRange)
    | SyncRead(dev: U32, range: DeviceRange, other: U32)
    | LaunchInternal(dev: U32, stream: U32, kernel: U32, mapping: map<int, DeviceRange>)
    | IsAlias(dev: U32, ptr: DevicePtr)
    | Deallocate(dev: U32, ptr: DevicePtr)

  /**
   * The answers of the device's virtual calls: the alias `get_local_alias`
   * offers for a range (if any), the pointer the k-th `allocate_memory` of
   * the device returns for a size, and whether `is_alias` holds of a pointer.
   */
  datatype Oracles = Oracles(
    localAlias: DeviceRange -> Option<DevicePtr>,
    allocate: (nat, U64) -> DevicePtr,
    isAlias: DevicePtr -> bool)

  /** Device `id` hands out only its own memory, as aliases and as allocations. */
  ghost predicate OraclesLocal(o: Oracles, id: U32)
  {
    && (forall r :: o.localAlias(r).Some? ==> o.localAlias(r).value.devId == id)
    && (forall k, n :: o.allocate(k, n).devId == id)
  }

  /** `is_alias` recognises exactly the aliases `get_local_alias` hands out and no allocation. */
  ghost predicate AliasConsistent(o: Oracles)
  {
    && (forall r :: o.localAlias(r).Some? ==> o.isAlias(o.localAlias(r).value))
    && (forall k, n :: !o.isAlias(o.allocate(k, n)))
  }

  /** `unordered_map::emplace`: inserts unless the key is already present. */
  function Emplace(m: map<int, DeviceRange>, k: int, v: DeviceRange): map<int, DeviceRange>
  {
    if k in m then m else m[k := v]
  }

  /** The map obtained by emplacing `locals[j]` under `ms[j].snode`, for j < n in order. */
  function MapOf(ms: seq<Entry>, locals: seq<DeviceRange>, n: nat): map<int, DeviceRange>
    requires n <= |ms| && n <= |locals|
  {
    if n == 0 then map[]
    else Emplace(MapOf(ms, locals, n - 1), ms[n - 1].snode, locals[n - 1])
  }

  /** The map depends only on the first n local ranges. */
  lemma {:induction false} MapOfExtend(ms: seq<Entry>, locals: seq<DeviceRange>, more: seq<DeviceRange>, n: nat)
    requires n <= |ms| && n <= |locals|
    ensures MapOf(ms, locals + more, n) == MapOf(ms, locals, n)
  {
    if n > 0 {
      MapOfExtend(ms, locals, more, n - 1);
    }
  }

  /** The keys of the map are the SNodes of the first n entries. */
  lemma {:induction false} MapOfKeys(ms: seq<Entry>, locals: seq<DeviceRange>, n: nat, k: int)
    requires n <= |ms| && n <= |locals|
    ensures k in MapOf(ms, locals, n) <==> exists j :: 0 <= j < n && ms[j].snode == k
  {
    if n > 0 {
      MapOfKeys(ms, locals, n - 1, k);
    }
  }

  /** With distinct keys, each entry's key looks up its own local range. */
  lemma {:induction false} MapOfLookup(ms: seq<Entry>, locals: seq<DeviceRange>, n: nat, j: int)
    requires n <= |ms| && n <= |locals| && DistinctKeys(ms) && 0 <= j < n
    ensures ms[j].snode in MapOf(ms, locals, n) && MapOf(ms, locals, n)[ms[j].snode] == locals[j]
  {
    if j < n - 1 {
      MapOfLookup(ms, locals, n - 1, j);
    } else {
      MapOfKeys(ms, locals, n - 1, ms[j].snode);
    }
  }

  /** Every entry's key is bound to that entry's local range. */
  ghost predicate Resolves(ms: seq<Entry>, m: map<int, DeviceRange>, locals: seq<DeviceRange>)
    requires |ms| == |locals|
  {
    forall j :: 0 <= j < |ms| ==> ms[j].snode in m && m[ms[j].snode] == locals[j]
  }

  lemma MapOfResolves(ms: seq<Entry>, locals: seq<DeviceRange>)
    requires |ms| == |locals| && DistinctKeys(ms)
    ensures Resolves(ms, MapOf(ms, locals, |ms|), locals)
  {
    forall j | 0 <= j < |ms|
      ensures ms[j].snode in MapOf(ms, locals, |ms|) && MapOf(ms, locals, |ms|)[ms[j].snode] == locals[j]
    {
      MapOfLookup(ms, locals, |ms|, j);
    }
  }

  /** The ranges of a mapping, in order. */
  function Ranges(ms: seq<Entry>): (rs: seq<DeviceRange>)
    ensures |rs| == |ms| && forall j :: 0 <= j < |ms| ==> rs[j] == ms[j].range
  {
    seq(|ms|, j requires 0 <= j < |ms| => ms[j].range)
  }

  /** The events, the local range and the new allocation count of phase 1 for one entry. */
  datatype Prep = Prep(events: seq<Event>, local: DeviceRange, allocs: nat)

  function PrepareEntry(id: U32, o: Oracles, e: Entry, k: nat): (p: Prep)
    ensures p.local.length == e.range.length
  {
    if !IsForeign(id, e) then Prep([], e.range, k)
    else
      match o.localAlias(e.range)
      case Some(alias) =>
        Prep([GetLocalAlias(id, e.range)], DeviceRange(alias, e.range.length), k)
      case None =>
        var buf := o.allocate(k, e.range.length);
        Prep([GetLocalAlias(id, e.range), Allocate(id, DeviceMemory, e.range.length, buf), Transfer(id, buf, e.range)],
             DeviceRange(buf, e.range.length), k + 1)
  }

  /** Phase 1 over the first n entries: its events, the local range of each entry, the final allocation count. */
  datatype Pre = Pre(events: seq<Event>, locals: seq<DeviceRange>, allocs: nat)

  function Preamble(id: U32, o: Oracles, ms: seq<Entry>, k0: nat, n: nat): (p: Pre)
    requires n <= |ms|
    ensures |p.locals| == n && k0 <= p.allocs
  {
    if n == 0 then Pre([], [], k0)
    else
      var p := Preamble(id, o, ms, k0, n - 1);
      var s := PrepareEntry(id, o, ms[n - 1], p.allocs);
      Pre(p.events + s.events, p.locals + [s.local], s.allocs)
  }

  /** Phases 2, 4 and 5. */
  datatype PhaseKind = AwaitSources | CopyBack | AwaitTargets

  function PhaseEntry(kind: PhaseKind, id: U32, o: Oracles, e: Entry, local: DeviceRange): seq<Event>
  {
    if !IsForeign(id, e) then []
    else
      match kind
      case AwaitSources => [SyncRead(id, local, e.range.base.devId)]
      case CopyBack =>
        [IsAlias(id, local.base)]
        + (if o.isAlias(local.base) then [] else [Transfer(e.range.base.devId, e.range.base, local)])
        + [Deallocate(id, local.base)]
      case AwaitTargets => [SyncRead(e.range.base.devId, e.range, id)]
  }

  /** One of phases 2, 4 and 5 over the first n entries. */
  function Phase(kind: PhaseKind, id: U32, o: Oracles, ms: seq<Entry>, locals: seq<DeviceRange>, n: nat): seq<Event>
    requires n <= |ms| && n <= |locals|
  {
    if n == 0 then []
    else Phase(kind, id, o, ms, locals, n - 1) + PhaseEntry(kind, id, o, ms[n - 1], locals[n - 1])
  }

  lemma PhaseStep(kind: PhaseKind, id: U32, o: Oracles, ms: seq<Entry>, locals: seq<DeviceRange>, i: nat)
    requires i < |ms| && i < |locals|
    ensures Phase(kind, id, o, ms, locals, i + 1) == Phase(kind, id, o, ms, locals, i) + PhaseEntry(kind, id, o, ms[i], locals[i])
  {
  }

  /** The calls `launch_kernel` makes, in order. */
  function LaunchTrace(id: U32, o: Oracles, k0: nat, stream: U32, kernel: U32, ms: seq<Entry>): seq<Event>
  {
    var n := |ms|;
    var p := Preamble(id, o, ms, k0, n);
    p.events
    + Phase(AwaitSources, id, o, ms, p.locals, n)
    + [LaunchInternal(id, stream, kernel, MapOf(ms, p.locals, n))]
    + Phase(CopyBack, id, o, ms, p.locals, n)
    + Phase(AwaitTargets, id, o, ms, p.locals, n)
  }

  /** The number of events phases 1 and 2 make, which is the position of the kernel launch. */
  function LaunchIndex(id: U32, o: Oracles, k0: nat, ms: seq<Entry>): nat
  {
    var p := Preamble(id, o, ms, k0, |ms|);
    |p.events| + |Phase(AwaitSources, id, o, ms, p.locals, |ms|)|
  }

  // ---------------------------------------------------------------------------
  // What the trace guarantees

  /** An entry's local range: same length; its own range when local; memory of `id` when foreign. */
  predicate Localised(id: U32, e: Entry, local: DeviceRange)
  {
    && local.length == e.range.length
    && (IsForeign(id, e) ==> local.base.devId == id)
    && (!IsForeign(id, e) ==> local == e.range)
  }

  lemma {:induction false} PreambleLocalises(id: U32, o: Oracles, ms: seq<Entry>, k0: nat, n: nat)
    requires OraclesLocal(o, id) && n <= |ms|
    ensures var p := Preamble(id, o, ms, k0, n);
            forall j :: 0 <= j < n ==> Localised(id, ms[j], p.locals[j])
  {
    if n > 0 {
      PreambleLocalises(id, o, ms, k0, n - 1);
    }
  }

  /**
   * The mapping the kernel receives has exactly the SNodes of the input
   * mapping, each bound to a range of the same length in this device's
   * memory; a range already on this device is passed through unchanged.
   */
  lemma KernelSeesLocalMemory(id: U32, o: Oracles, k0: nat, ms: seq<Entry>, j: int)
    requires OraclesLocal(o, id) && DistinctKeys(ms) && 0 <= j < |ms|
    ensures var m := MapOf(ms, Preamble(id, o, ms, k0, |ms|).locals, |ms|);
            && (forall k :: k in m <==> exists i :: 0 <= i < |ms| && ms[i].snode == k)
            && m[ms[j].snode].base.devId == id
            && m[ms[j].snode].length == ms[j].range.length
            && (!IsForeign(id, ms[j]) ==> m[ms[j].snode] == ms[j].range)
  {
    var p := Preamble(id, o, ms, k0, |ms|);
    PreambleLocalises(id, o, ms, k0, |ms|);
    MapOfLookup(ms, p.locals, |ms|, j);
    forall k {
      MapOfKeys(ms, p.locals, |ms|, k);
    }
  }

  lemma {:induction false} AllLocalPreamble(id: U32, o: Oracles, ms: seq<Entry>, k0: nat, n: nat)
    requires n <= |ms| && forall j :: 0 <= j < |ms| ==> !IsForeign(id, ms[j])
    ensures Preamble(id, o, ms, k0, n) == Pre([], Ranges(ms)[..n], k0)
  {
    if n > 0 {
      AllLocalPreamble(id, o, ms, k0, n - 1);
      assert Ranges(ms)[..n - 1] + [ms[n - 1].range] == Ranges(ms)[..n];
    }
  }

  lemma {:induction false} AllLocalPhase(kind: PhaseKind, id: U32, o: Oracles, ms: seq<Entry>, locals: seq<DeviceRange>, n: nat)
    requires n <= |ms| && n <= |locals|
    requires forall j :: 0 <= j < |ms| ==> !IsForeign(id, ms[j])
    ensures Phase(kind, id, o, ms, locals, n) == []
  {
    if n > 0 {
      AllLocalPhase(kind, id, o, ms, locals, n - 1);
    }
  }

  /**
   * When every SNode already lives on this device, a launch is exactly one
   * call of `launch_kernel_internal` on the unchanged mapping, and nothing
   * is allocated.
   */
  lemma AllLocalFastPath(id: U32, o: Oracles, k0: nat, stream: U32, kernel: U32, ms: seq<Entry>)
    requires forall j :: 0 <= j < |ms| ==> !IsForeign(id, ms[j])
    ensures LaunchTrace(id, o, k0, stream, kernel, ms) == [LaunchInternal(id, stream, kernel, MapOf(ms, Ranges(ms), |ms|))]
    ensures Preamble(id, o, ms, k0, |ms|).allocs == k0
  {
    var n := |ms|;
    AllLocalPreamble(id, o, ms, k0, n);
    assert Ranges(ms)[..n] == Ranges(ms);
    AllLocalPhase(AwaitSources, id, o, ms, Ranges(ms), n);
    AllLocalPhase(CopyBack, id, o, ms, Ranges(ms), n);
    AllLocalPhase(AwaitTargets, id, o, ms, Ranges(ms), n);
  }

  /** A call that may come before the kernel: local aliasing, allocation, inbound copies and waits by this device. */
  predicate BeforeLaunch(id: U32, ev: Event)
  {
    match ev
    case GetLocalAlias(d, _) => d == id
    case Allocate(d, _, _, _) => d == id
    case Transfer(d, _, _) => d == id
    case SyncRead(d, _, _) => d == id
    case _ => false
  }

  /** A call that may come after the kernel: alias tests, copies back, deallocations and waits by other devices. */
  predicate AfterLaunch(id: U32, ev: Event)
  {
    match ev
    case IsAlias(d, _) => d == id
    case Deallocate(d, _) => d == id
    case Transfer(d, _, _) => d != id
    case SyncRead(d, _, other) => d != id && other == id
    case _ => false
  }

  lemma {:induction false} PreambleBefore(id: U32, o: Oracles, ms: seq<Entry>, k0: nat, n: nat)
    requires n <= |ms|
    ensures forall ev :: ev in Preamble(id, o, ms, k0, n).events ==> BeforeLaunch(id, ev)
  {
    if n > 0 {
      PreambleBefore(id, o, ms, k0, n - 1);
    }
  }

  lemma {:induction false} PhaseKinds(kind: PhaseKind, id: U32, o: Oracles, ms: seq<Entry>, locals: seq<DeviceRange>, n: nat)
    requires n <= |ms| && n <= |locals|
    ensures forall ev :: ev in Phase(kind, id, o, ms, locals, n) ==>
              if kind == AwaitSources then BeforeLaunch(id, ev) else AfterLaunch(id, ev)
  {
    if n > 0 {
      PhaseKinds(kind, id, o, ms, locals, n - 1);
    }
  }

  lemma SplitAround<T>(before: seq<T>, x: T, after: seq<T>)
    ensures var t := before + [x] + after;
            t[|before|] == x && t[..|before|] == before && t[|before| + 1..] == after
  {
    var t := before + [x] + after;
    assert t[..|before|] == before;
    assert t[|before| + 1..] == after;
  }

  /**
   * The kernel is launched once, after every allocation, inbound transfer
   * and wait of this device, and before every copy back, deallocation and
   * wait of another device.
   */
  lemma LaunchOrdering(id: U32, o: Oracles, k0: nat, stream: U32, kernel: U32, ms: seq<Entry>)
    ensures var t := LaunchTrace(id, o, k0, stream, kernel, ms);
            var l := LaunchIndex(id, o, k0, ms);
            && l < |t|
            && t[l] == LaunchInternal(id, stream, kernel, MapOf(ms, Preamble(id, o, ms, k0, |ms|).locals, |ms|))
            && (forall ev :: ev in t[..l] ==> BeforeLaunch(id, ev))
            && (forall ev :: ev in t[l + 1..] ==> AfterLaunch(id, ev))
  {
    var n := |ms|;
    var p := Preamble(id, o, ms, k0, n);
    var before := p.events + Phase(AwaitSources, id, o, ms, p.locals, n);
    var after := Phase(CopyBack, id, o, ms, p.locals, n) + Phase(AwaitTargets, id, o, ms, p.locals, n);
    var launch := LaunchInternal(id, stream, kernel, MapOf(ms, p.locals, n));
    assert LaunchTrace(id, o, k0, stream, kernel, ms) == before + [launch] + after;
    PreambleBefore(id, o, ms, k0, n);
    PhaseKinds(AwaitSources, id, o, ms, p.locals, n);
    PhaseKinds(CopyBack, id, o, ms, p.locals, n);
    PhaseKinds(AwaitTargets, id, o, ms, p.locals, n);
    SplitAround(before, launch, after);
  }

  /** A transfer is handled by the device that owns its destination. */
  predicate HandledByTarget(ev: Event)
  {
    ev.Transfer? ==> ev.dev == ev.dst.devId
  }

  lemma {:induction false} PreambleTransfers(id: U32, o: Oracles, ms: seq<Entry>, k0: nat, n: nat)
    requires OraclesLocal(o, id) && n <= |ms|
    ensures forall ev :: ev in Preamble(id, o, ms, k0, n).events ==> HandledByTarget(ev)
  {
    if n > 0 {
      PreambleTransfers(id, o, ms, k0, n - 1);
    }
  }

  lemma {:induction false} PhaseTransfers(kind: PhaseKind, id: U32, o: Oracles, ms: seq<Entry>, locals: seq<DeviceRange>, n: nat)
    requires n <= |ms| && n <= |locals|
    ensures forall ev :: ev in Phase(kind, id, o, ms, locals, n) ==> HandledByTarget(ev)
  {
    if n > 0 {
      PhaseTransfers(kind, id, o, ms, locals, n - 1);
    }
  }

  /**
   * Every transfer in a launch is issued on the device its destination
   * belongs to, as `Device::transfer` requires, provided this device's
   * allocations are its own memory.
   */
  lemma TransfersHandledByTarget(id: U32, o: Oracles, k0: nat, stream: U32, kernel: U32, ms: seq<Entry>)
    requires OraclesLocal(o, id)
    ensures forall ev :: ev in LaunchTrace(id, o, k0, stream, kernel, ms) ==> HandledByTarget(ev)
  {
    var n := |ms|;
    var p := Preamble(id, o, ms, k0, n);
    PreambleTransfers(id, o, ms, k0, n);
    PhaseTransfers(AwaitSources, id, o, ms, p.locals, n);
    PhaseTransfers(CopyBack, id, o, ms, p.locals, n);
    PhaseTransfers(AwaitTargets, id, o, ms, p.locals, n);
  }

  /** The j-th local range and events of phase 1 are those of the j-th entry, given the allocations before it. */
  lemma {:induction false} PreambleEntry(id: U32, o: Oracles, ms: seq<Entry>, k0: nat, n: nat, j: int)
    requires n <= |ms| && 0 <= j < n
    ensures var s := PrepareEntry(id, o, ms[j], Preamble(id, o, ms, k0, j).allocs);
            && Preamble(id, o, ms, k0, n).locals[j] == s.local
            && (forall ev :: ev in s.events ==> ev in Preamble(id, o, ms, k0, n).events)
  {
    if j < n - 1 {
      PreambleEntry(id, o, ms, k0, n - 1, j);
    }
  }

  lemma {:induction false} PhaseEntryIncluded(kind: PhaseKind, id: U32, o: Oracles, ms: seq<Entry>, locals: seq<DeviceRange>, n: nat, j: int)
    requires n <= |ms| && n <= |locals| && 0 <= j < n
    ensures forall ev :: ev in PhaseEntry(kind, id, o, ms[j], locals[j]) ==> ev in Phase(kind, id, o, ms, locals, n)
  {
    if j < n - 1 {
      PhaseEntryIncluded(kind, id, o, ms, locals, n - 1, j);
    }
  }

  /**
   * The fate of one foreign SNode. Without an alias its memory is
   * replicated: allocated, filled and, after the kernel, copied back and
   * deallocated. With an alias the alias is used as is and only released.
   * When `is_alias` agrees with `get_local_alias`, phase 4 copies back
   * exactly the replicated buffers.
   */
  lemma ForeignEntryLifecycle(id: U32, o: Oracles, k0: nat, ms: seq<Entry>, j: int)
    requires AliasConsistent(o) && 0 <= j < |ms| && IsForeign(id, ms[j])
    ensures var p := Preamble(id, o, ms, k0, |ms|);
            var l := p.locals[j];
            var e := ms[j];
            var back := Transfer(e.range.base.devId, e.range.base, l);
            && GetLocalAlias(id, e.range) in p.events
            && Deallocate(id, l.base) in Phase(CopyBack, id, o, ms, p.locals, |ms|)
            && (o.localAlias(e.range).None? ==>
                  && Allocate(id, DeviceMemory, e.range.length, l.base) in p.events
                  && Transfer(id, l.base, e.range) in p.events
                  && back in Phase(CopyBack, id, o, ms, p.locals, |ms|))
            && (o.localAlias(e.range).Some? ==>
                  && l == DeviceRange(o.localAlias(e.range).value, e.range.length)
                  && back !in PhaseEntry(CopyBack, id, o, e, l))
  {
    var p := Preamble(id, o, ms, k0, |ms|);
    PreambleEntry(id, o, ms, k0, |ms|, j);
    PhaseEntryIncluded(CopyBack, id, o, ms, p.locals, |ms|, j);
  }

  /**
   * The calls made for one foreign SNode, in order: in phase 1 the alias
   * query, then allocation and the transfer in only when there is no alias;
   * in phase 4 the `is_alias` check, the copy back only for a replicated
   * buffer, and the deallocation.
   */
  lemma ForeignEntryCalls(id: U32, o: Oracles, k0: nat, ms: seq<Entry>, j: int)
    requires AliasConsistent(o) && 0 <= j < |ms| && IsForeign(id, ms[j])
    ensures var l, e := Preamble(id, o, ms, k0, |ms|).locals[j], ms[j];
            var replicated := o.localAlias(e.range).None?;
            && PrepareEntry(id, o, e, Preamble(id, o, ms, k0, j).allocs).events
               == [GetLocalAlias(id, e.range)]
                  + (if replicated then [Allocate(id, DeviceMemory, e.range.length, l.base), Transfer(id, l.base, e.range)] else [])
            && PhaseEntry(CopyBack, id, o, e, l)
               == [IsAlias(id, l.base)]
                  + (if replicated then [Transfer(e.range.base.devId, e.range.base, l)] else [])
                  + [Deallocate(id, l.base)]
  {
    PreambleEntry(id, o, ms, k0, |ms|, j);
  }

  // ---------------------------------------------------------------------------
  // How many calls of each kind a launch makes

  /** The kinds of call a launch makes. */
  datatype EventKind = AliasQuery | Allocation | Copy | Sync | KernelRun | AliasCheck | Deallocation

  function KindOf(ev: Event): EventKind
  {
    match ev
    case GetLocalAlias(_, _) => AliasQuery
    case Allocate(_, _, _, _) => Allocation
    case Transfer(_, _, _) => Copy
    case SyncRead(_, _, _) => Sync
    case LaunchInternal(_, _, _, _) => KernelRun
    case IsAlias(_, _) => AliasCheck
    case Deallocate(_, _) => Deallocation
  }

  /** The number of events of kind `k` in a stretch of a trace. */
  function Count(evs: seq<Event>, k: EventKind): nat
  {
    if evs == [] then 0
    else Count(evs[..|evs| - 1], k) + (if KindOf(evs[|evs| - 1]) == k then 1 else 0)
  }

  lemma {:induction false} CountAppend(a: seq<Event>, b: seq<Event>, k: EventKind)
    ensures Count(a + b, k) == Count(a, k) + Count(b, k)
  {
    if b == [] {
      assert a + b == a;
    } else {
      CountAppend(a, b[..|b| - 1], k);
      assert (a + b)[..|a + b| - 1] == a + b[..|b| - 1];
    }
  }

  /** Counts over the five stretches of a launch add up. */
  lemma CountPhases(pre: seq<Event>, a: seq<Event>, run: Event, c: seq<Event>, t: seq<Event>, k: EventKind)
    ensures Count(pre + a + [run] + c + t, k)
         == Count(pre, k) + Count(a, k) + (if KindOf(run) == k then 1 else 0) + Count(c, k) + Count(t, k)
  {
    CountSingle(run, k);
    CountAppend(pre, a, k);
    CountAppend(pre + a, [run], k);
    CountAppend(pre + a + [run], c, k);
    CountAppend(pre + a + [run] + c, t, k);
  }

  lemma CountSingle(x: Event, k: EventKind)
    ensures Count([x], k) == if KindOf(x) == k then 1 else 0
  {
    assert [x][..0] == [];
  }

  /**
   * The calls phase 1 makes for one entry: a foreign entry asks for an alias
   * once, and is allocated and filled exactly when it gets none.
   */
  lemma PrepareEntryCounts(id: U32, o: Oracles, e: Entry, k0: nat, k: EventKind)
    ensures var f := IsForeign(id, e);
      var r := f && o.localAlias(e.range).None?;
      Count(PrepareEntry(id, o, e, k0).events, k) == match k
        case AliasQuery => if f then 1 else 0
        case Allocation => if r then 1 else 0
        case Copy => if r then 1 else 0
        case _ => 0
  {
    if IsForeign(id, e) {
      var q := GetLocalAlias(id, e.range);
      CountSingle(q, k);
      if o.localAlias(e.range).None? {
        var buf := o.allocate(k0, e.range.length);
        var a, t := Allocate(id, DeviceMemory, e.range.length, buf), Transfer(id, buf, e.range);
        CountSingle(a, k);
        CountSingle(t, k);
        CountAppend([q], [a], k);
        assert [q] + [a] == [q, a];
        CountAppend([q, a], [t], k);
        assert [q, a] + [t] == PrepareEntry(id, o, e, k0).events;
      }
    }
  }

  /**
   * The calls one of phases 2, 4 and 5 makes for one entry: one
   * synchronisation in phases 2 and 5; in phase 4 one `is_alias`, one
   * deallocation, and a copy back exactly when the buffer is not an alias.
   */
  lemma PhaseEntryCounts(kind: PhaseKind, id: U32, o: Oracles, e: Entry, l: DeviceRange, k: EventKind)
    ensures var f := IsForeign(id, e);
      var back := f && kind == CopyBack && !o.isAlias(l.base);
      Count(PhaseEntry(kind, id, o, e, l), k) == match k
        case Sync => if f && kind != CopyBack then 1 else 0
        case AliasCheck => if f && kind == CopyBack then 1 else 0
        case Deallocation => if f && kind == CopyBack then 1 else 0
        case Copy => if back then 1 else 0
        case _ => 0
  {
    if IsForeign(id, e) {
      match kind
      case AwaitSources => CountSingle(SyncRead(id, l, e.range.base.devId), k);
      case AwaitTargets => CountSingle(SyncRead(e.range.base.devId, e.range, id), k);
      case CopyBack =>
        var check, back, free := IsAlias(id, l.base), Transfer(e.range.base.devId, e.range.base, l), Deallocate(id, l.base);
        CountSingle(check, k);
        CountSingle(free, k);
        if o.isAlias(l.base) {
          assert PhaseEntry(kind, id, o, e, l) == [check] + [free];
          CountAppend([check], [free], k);
        } else {
          CountSingle(back, k);
          assert PhaseEntry(kind, id, o, e, l) == [check] + [back] + [free];
          CountAppend([check], [back], k);
          CountAppend([check] + [back], [free], k);
        }
    }
  }

  /** The number of foreign entries among the first n. */
  function Foreign(id: U32, ms: seq<Entry>, n: nat): nat
    requires n <= |ms|
  {
    if n == 0 then 0 else Foreign(id, ms, n - 1) + (if IsForeign(id, ms[n - 1]) then 1 else 0)
  }

  /** The number of foreign entries among the first n that get no alias, and so are replicated. */
  function Replicated(id: U32, o: Oracles, ms: seq<Entry>, n: nat): nat
    requires n <= |ms|
  {
    if n == 0 then 0
    else Replicated(id, o, ms, n - 1) + (if IsForeign(id, ms[n - 1]) && o.localAlias(ms[n - 1].range).None? then 1 else 0)
  }

  /** The number of foreign entries among the first n whose local buffer `is_alias` rejects, and so is copied back. */
  function CopiedBack(id: U32, o: Oracles, ms: seq<Entry>, locals: seq<DeviceRange>, n: nat): nat
    requires n <= |ms| && n <= |locals|
  {
    if n == 0 then 0
    else CopiedBack(id, o, ms, locals, n - 1) + (if IsForeign(id, ms[n - 1]) && !o.isAlias(locals[n - 1].base) then 1 else 0)
  }

  /** Phase 1 asks for an alias of every foreign range, and allocates and fills a buffer for each replicated one. */
  lemma {:induction false} PreambleCounts(id: U32, o: Oracles, ms: seq<Entry>, k0: nat, n: nat, k: EventKind)
    requires n <= |ms|
    ensures var f, r := Foreign(id, ms, n), Replicated(id, o, ms, n);
      Count(Preamble(id, o, ms, k0, n).events, k) == match k
        case AliasQuery => f
        case Allocation => r
        case Copy => r
        case _ => 0
  {
    if n > 0 {
      var p := Preamble(id, o, ms, k0, n - 1);
      var e := ms[n - 1];
      PreambleCounts(id, o, ms, k0, n - 1, k);
      PrepareEntryCounts(id, o, e, p.allocs, k);
      CountAppend(p.events, PrepareEntry(id, o, e, p.allocs).events, k);
    }
  }

  /**
   * Phases 2 and 5 make one synchronisation per foreign range; phase 4 checks
   * and deallocates every foreign range's buffer and copies back those that
   * are not aliases.
   */
  lemma {:induction false} PhaseCounts(kind: PhaseKind, id: U32, o: Oracles, ms: seq<Entry>, locals: seq<DeviceRange>, n: nat, k: EventKind)
    requires n <= |ms| && n <= |locals|
    ensures var f, c := Foreign(id, ms, n), CopiedBack(id, o, ms, locals, n);
      Count(Phase(kind, id, o, ms, locals, n), k) == match k
        case Sync => if kind == CopyBack then 0 else f
        case AliasCheck => if kind == CopyBack then f else 0
        case Deallocation => if kind == CopyBack then f else 0
        case Copy => if kind == CopyBack then c else 0
        case _ => 0
  {
    if n > 0 {
      var e, l := ms[n - 1], locals[n - 1];
      PhaseCounts(kind, id, o, ms, locals, n - 1, k);
      CountAppend(Phase(kind, id, o, ms, locals, n - 1), PhaseEntry(kind, id, o, e, l), k);
      PhaseEntryCounts(kind, id, o, e, l, k);
    }
  }

  /** When `is_alias` agrees with `get_local_alias`, phase 4 copies back exactly the replicated entries. */
  lemma {:induction false} CopiedBackIsReplicated(id: U32, o: Oracles, ms: seq<Entry>, k0: nat, n: nat)
    requires AliasConsistent(o) && n <= |ms|
    ensures CopiedBack(id, o, ms, Preamble(id, o, ms, k0, |ms|).locals, n) == Replicated(id, o, ms, n)
  {
    if n > 0 {
      CopiedBackIsReplicated(id, o, ms, k0, n - 1);
      PreambleEntry(id, o, ms, k0, |ms|, n - 1);
    }
  }

  /**
   * Over a whole launch: one `get_local_alias`, one `is_alias` and one
   * `dealloc_memory` per foreign SNode, one allocation and two transfers
   * (in and back) per replicated SNode, two synchronisations per foreign
   * SNode and a single kernel launch.
   */
  /** A launch's counts are those of its five stretches. */
  lemma TraceCounts(id: U32, o: Oracles, k0: nat, stream: U32, kernel: U32, ms: seq<Entry>, k: EventKind)
    ensures var n, p := |ms|, Preamble(id, o, ms, k0, |ms|);
      Count(LaunchTrace(id, o, k0, stream, kernel, ms), k)
      == Count(p.events, k) + Count(Phase(AwaitSources, id, o, ms, p.locals, n), k) + (if k == KernelRun then 1 else 0)
         + Count(Phase(CopyBack, id, o, ms, p.locals, n), k) + Count(Phase(AwaitTargets, id, o, ms, p.locals, n), k)
  {
    var n := |ms|;
    var p := Preamble(id, o, ms, k0, n);
    var run := LaunchInternal(id, stream, kernel, MapOf(ms, p.locals, n));
    CountPhases(p.events, Phase(AwaitSources, id, o, ms, p.locals, n), run,
                Phase(CopyBack, id, o, ms, p.locals, n), Phase(AwaitTargets, id, o, ms, p.locals, n), k);
  }

  lemma LaunchCallCounts(id: U32, o: Oracles, k0: nat, stream: U32, kernel: U32, ms: seq<Entry>, k: EventKind)
    requires AliasConsistent(o)
    ensures var f, r := Foreign(id, ms, |ms|), Replicated(id, o, ms, |ms|);
      Count(LaunchTrace(id, o, k0, stream, kernel, ms), k) == match k
        case AliasQuery => f
        case AliasCheck => f
        case Deallocation => f
        case Allocation => r
        case Copy => 2 * r
        case Sync => 2 * f
        case KernelRun => 1
  {
    var n := |ms|;
    var p := Preamble(id, o, ms, k0, n);
    TraceCounts(id, o, k0, stream, kernel, ms, k);
    PreambleCounts(id, o, ms, k0, n, k);
    PhaseCounts(AwaitSources, id, o, ms, p.locals, n, k);
    PhaseCounts(CopyBack, id, o, ms, p.locals, n, k);
    PhaseCounts(AwaitTargets, id, o, ms, p.locals, n, k);
    CopiedBackIsReplicated(id, o, ms, k0, n);
  }

  lemma AppendAssoc(t0: seq<Event>, a: seq<Event>, b: seq<Event>)
    ensures t0 + a + b == t0 + (a + b)
  {
  }

  lemma AppendFive(t0: seq<Event>, a: seq<Event>, b: seq<Event>, c: seq<Event>, d: seq<Event>, e: seq<Event>)
    ensures t0 + a + b + c + d + e == t0 + (a + b + c + d + e)
  {
  }

  // ---------------------------------------------------------------------------
  // The device

  /**
   * A `ComputeDevice`. Its calls and the calls it makes on other devices are
   * recorded in `trace`; `allocCount` counts the allocations it has answered.
   */
  class ComputeDevice {
    const deviceId: U32
    const oracles: Oracles
    var allocCount: nat
    var trace: seq<Event>

    constructor (id: U32, o: Oracles)
      ensures deviceId == id && oracles == o && allocCount == 0 && trace == []
    {
      deviceId := id;
      oracles := o;
      allocCount := 0;
      trace := [];
    }

    method GetLocalAliasOf(other: DeviceRange) returns (ok: bool, local: DevicePtr)
      modifies this
      ensures trace == old(trace) + [GetLocalAlias(deviceId, other)] && allocCount == old(allocCount)
      ensures ok == oracles.localAlias(other).Some?
      ensures ok ==> local == oracles.localAlias(other).value
    {
      trace := trace + [GetLocalAlias(deviceId, other)];
      match oracles.localAlias(other) {
        case Some(p) => ok, local := true, p;
        case None => ok, local := false, DevicePtr(0, 0, 0);
      }
    }

    method AllocateMemory(memType: MemoryType, size: U64) returns (p: DevicePtr)
      modifies this
      ensures p == oracles.allocate(old(allocCount), size)
      ensures trace == old(trace) + [Allocate(deviceId, memType, size, p)] && allocCount == old(allocCount) + 1
    {
      p := oracles.allocate(allocCount, size);
      trace := trace + [Allocate(deviceId, memType, size, p)];
      allocCount := allocCount + 1;
    }

    method IsAliasOf(ptr: DevicePtr) returns (b: bool)
      modifies this
      ensures b == oracles.isAlias(ptr)
      ensures trace == old(trace) + [IsAlias(deviceId, ptr)] && allocCount == old(allocCount)
    {
      b := oracles.isAlias(ptr);
      trace := trace + [IsAlias(deviceId, ptr)];
    }

    /** A call this device issues, on itself or on the device `ev.dev`, whose answer is not used. */
    method Issue(ev: Event)
      modifies this
      ensures trace == old(trace) + [ev] && allocCount == old(allocCount)
    {
      trace := trace + [ev];
    }

    /** The body of phase 1 for one entry: its local range, aliased or replicated when foreign. */
    method PrepareOne(e: Entry) returns (local: DeviceRange)
      modifies this
      ensures var s := PrepareEntry(deviceId, oracles, e, old(allocCount));
              trace == old(trace) + s.events && local == s.local && allocCount == s.allocs
    {
      if e.range.base.devId == deviceId {
        local := e.range;
      } else {
        var ok, buf := GetLocalAliasOf(e.range);
        if !ok {
          buf := AllocateMemory(DeviceMemory, e.range.length);
          Issue(Transfer(deviceId, buf, e.range));
        }
        local := DeviceRange(buf, e.range.length);
      }
    }

    /** The body of phase 4 for one foreign entry and its local range. */
    method CopyBackOne(e: Entry, replicated: DeviceRange)
      requires IsForeign(deviceId, e)
      modifies this
      ensures trace == old(trace) + PhaseEntry(CopyBack, deviceId, oracles, e, replicated)
      ensures allocCount == old(allocCount)
    {
      var alias := IsAliasOf(replicated.base);
      if !alias {
        Issue(Transfer(e.range.base.devId, e.range.base, replicated));
      }
      Issue(Deallocate(deviceId, replicated.base));
    }

    /** Phase 1: the local range of every entry, emplaced into the device mapping. */
    method Preambles(mapping: seq<Entry>) returns (deviceMapping: map<int, DeviceRange>, ghost locals: seq<DeviceRange>)
      requires DistinctKeys(mapping)
      modifies this
      ensures var p := Preamble(deviceId, oracles, mapping, old(allocCount), |mapping|);
              trace == old(trace) + p.events && locals == p.locals && allocCount == p.allocs
      ensures deviceMapping == MapOf(mapping, locals, |mapping|) && Resolves(mapping, deviceMapping, locals)
    {
      ghost var t0 := trace;
      ghost var k0 := allocCount;
      locals := [];
      deviceMapping := map[];
      for i := 0 to |mapping|
        invariant var p := Preamble(deviceId, oracles, mapping, k0, i);
                  trace == t0 + p.events && locals == p.locals && allocCount == p.allocs
        invariant deviceMapping == MapOf(mapping, locals, i)
      {
        var e := mapping[i];
        AppendAssoc(t0, Preamble(deviceId, oracles, mapping, k0, i).events,
                    PrepareEntry(deviceId, oracles, e, allocCount).events);
        var local := PrepareOne(e);
        MapOfExtend(mapping, locals, [local], i);
        deviceMapping := Emplace(deviceMapping, e.snode, local);
        locals := locals + [local];
      }
      MapOfResolves(mapping, locals);
    }

    /** Phase 2: this device waits for every foreign source. */
    method AwaitSourcesPass(mapping: seq<Entry>, deviceMapping: map<int, DeviceRange>, ghost locals: seq<DeviceRange>)
      requires |locals| == |mapping| && Resolves(mapping, deviceMapping, locals)
      modifies this
      ensures trace == old(trace) + Phase(AwaitSources, deviceId, oracles, mapping, locals, |mapping|)
      ensures allocCount == old(allocCount)
    {
      ghost var t0 := trace;
      for i := 0 to |mapping|
        invariant allocCount == old(allocCount)
        invariant trace == t0 + Phase(AwaitSources, deviceId, oracles, mapping, locals, i)
      {
        var e := mapping[i];
        if e.range.base.devId != deviceId {
          Issue(SyncRead(deviceId, deviceMapping[e.snode], e.range.base.devId));
        }
      }
    }

    /** Phase 4: every foreign local range is copied back unless it is an alias, then deallocated. */
    method CopyBackPass(mapping: seq<Entry>, deviceMapping: map<int, DeviceRange>, ghost locals: seq<DeviceRange>)
      requires |locals| == |mapping| && Resolves(mapping, deviceMapping, locals)
      modifies this
      ensures trace == old(trace) + Phase(CopyBack, deviceId, oracles, mapping, locals, |mapping|)
      ensures allocCount == old(allocCount)
    {
      ghost var t0 := trace;
      for i := 0 to |mapping|
        invariant allocCount == old(allocCount)
        invariant trace == t0 + Phase(CopyBack, deviceId, oracles, mapping, locals, i)
      {
        var e := mapping[i];
        PhaseStep(CopyBack, deviceId, oracles, mapping, locals, i);
        AppendAssoc(t0, Phase(CopyBack, deviceId, oracles, mapping, locals, i),
                    PhaseEntry(CopyBack, deviceId, oracles, e, locals[i]));
        if e.range.base.devId != deviceId {
          CopyBackOne(e, deviceMapping[e.snode]);
        }
      }
    }

    /** Phase 5: every foreign device waits for this one. */
    method AwaitTargetsPass(mapping: seq<Entry>, ghost locals: seq<DeviceRange>)
      requires |locals| == |mapping|
      modifies this
      ensures trace == old(trace) + Phase(AwaitTargets, deviceId, oracles, mapping, locals, |mapping|)
      ensures allocCount == old(allocCount)
    {
      ghost var t0 := trace;
      for i := 0 to |mapping|
        invariant allocCount == old(allocCount)
        invariant trace == t0 + Phase(AwaitTargets, deviceId, oracles, mapping, locals, i)
      {
        var e := mapping[i];
        if e.range.base.devId != deviceId {
          Issue(SyncRead(e.range.base.devId, e.range, deviceId));
        }
      }
    }

    /** `ComputeDevice::launch_kernel`. */
    method LaunchKernel(streamId: U32, kernelId: U32, mapping: seq<Entry>)
      requires DistinctKeys(mapping)
      modifies this
      ensures trace == old(trace) + LaunchTrace(deviceId, oracles, old(allocCount), streamId, kernelId, mapping)
      ensures allocCount == Preamble(deviceId, oracles, mapping, old(allocCount), |mapping|).allocs
    {
      ghost var t0 := trace;
      var deviceMapping, locals := Preambles(mapping);
      AwaitSourcesPass(mapping, deviceMapping, locals);
      Issue(LaunchInternal(deviceId, streamId, kernelId, deviceMapping));
      CopyBackPass(mapping, deviceMapping, locals);
      AwaitTargetsPass(mapping, locals);
      AppendFive(t0, Preamble(deviceId, oracles, mapping, old(allocCount), |mapping|).events,
                 Phase(AwaitSources, deviceId, oracles, mapping, locals, |mapping|),
                 [LaunchInternal(deviceId, streamId, kernelId, deviceMapping)],
                 Phase(CopyBack, deviceId, oracles, mapping, locals, |mapping|),
                 Phase(AwaitTargets, deviceId, oracles, mapping, locals, |mapping|));
    }
  }
}
