/**
 * `VulkanResourceBinder` (taichi/backends/vulkan/vulkan_device.cpp): the
 * per-pipeline table of descriptor sets and their buffer bindings, which is
 * first filled from shader reflection, then locked, after which only the
 * buffers behind existing bindings of the same kind may change.
 */
module VkBinder {
  import opened Wrappers
  import opened VkTypes

  /** The binder's sets: set number to (binding number to binding). */
  type Sets = map<nat, map<nat, Binding>>

  /** The binding stored at (set, binding), if any. */
  function At(sets: Sets, s: nat, b: nat): Option<Binding>
  {
    if s in sets && b in sets[s] then Some(sets[s][b]) else None
  }

  /** The structure of one set: which bindings exist and their kinds. */
  function LayoutOf(bindings: map<nat, Binding>): SetLayout
  {
    map b | b in bindings :: bindings[b].kind
  }

  function Layouts(sets: Sets): map<nat, SetLayout>
  {
    map s | s in sets :: LayoutOf(sets[s])
  }

  /**
   * What `rw_buffer` / `buffer` do: `Ignored` when the layout is locked and
   * (set, binding) does not exist, `KindMismatch` when it is locked and the
   * existing binding has the other kind (the assertion that aborts), and
   * otherwise `Stored` with the binding overwritten.
   */
  datatype BindOutcome = Stored | Ignored | KindMismatch

  function Bind(sets: Sets, locked: bool, s: nat, b: nat, binding: Binding): (BindOutcome, Sets)
  {
    if locked && At(sets, s, b).None? then (Ignored, sets)
    else if locked && At(sets, s, b).value.kind != binding.kind then (KindMismatch, sets)
    else
      var bs := if s in sets then sets[s] else map[];
      (Stored, sets[s := bs[b := binding]])
  }

  /** The outcome of a bind, and that a stored bind changes exactly one binding. */
  lemma BindSpec(sets: Sets, locked: bool, s: nat, b: nat, binding: Binding)
    ensures var (outcome, sets') := Bind(sets, locked, s, b, binding);
      && (outcome == Stored <==> !locked || (At(sets, s, b).Some? && At(sets, s, b).value.kind == binding.kind))
      && (outcome == KindMismatch <==> locked && At(sets, s, b).Some? && At(sets, s, b).value.kind != binding.kind)
      && (outcome != Stored ==> sets' == sets)
      && (outcome == Stored ==> sets'.Keys == sets.Keys + {s})
      && (outcome == Stored ==> forall s', b' :: At(sets', s', b') == if s' == s && b' == b then Some(binding) else At(sets, s', b'))
  {
  }

  /** Once the layout is locked, no bind changes which bindings exist or their kinds. */
  lemma {:induction false} LockedBindKeepsLayout(sets: Sets, s: nat, b: nat, binding: Binding)
    ensures Layouts(Bind(sets, true, s, b, binding).1) == Layouts(sets)
  {
    var (outcome, sets') := Bind(sets, true, s, b, binding);
    if outcome == Stored {
      assert sets'[s] == sets[s][b := binding];
      assert LayoutOf(sets'[s]) == LayoutOf(sets[s]);
    }
  }

  /** Binding the same thing twice is binding it once. */
  lemma BindIdempotent(sets: Sets, locked: bool, s: nat, b: nat, binding: Binding)
    ensures var sets' := Bind(sets, locked, s, b, binding).1;
      Bind(sets', locked, s, b, binding) == (Bind(sets, locked, s, b, binding).0, sets')
  {
    var sets' := Bind(sets, locked, s, b, binding).1;
    if Bind(sets, locked, s, b, binding).0 == Stored {
      assert sets'[s][b := binding] == sets'[s];
      assert sets'[s := sets'[s]] == sets';
    }
  }

  // ---------------------------------------------------------------------------
  // Reflection

  /** The descriptor types reflection reports; sampled images are not registered. */
  datatype ReflectedKind = ReflStorageBuffer | ReflUniformBuffer | ReflSampledImage

  datatype ReflectedBinding = ReflectedBinding(binding: nat, kind: ReflectedKind)

  /** One descriptor set as reported by reflection of one shader module. */
  datatype ReflectedSet = ReflectedSet(setNumber: nat, bindings: seq<ReflectedBinding>)

  /** The placeholder binding registration stores: a null pointer and size 0. */
  function Placeholder(k: ReflectedKind): Binding
    requires k != ReflSampledImage
  {
    Binding(if k == ReflStorageBuffer then StorageBuffer else UniformBuffer, NullPtr, 0)
  }

  /** Registration of the first n bindings of one reflected set into an unlocked binder. */
  function RegisterSetSpec(sets: Sets, rs: ReflectedSet, n: nat): Sets
    requires n <= |rs.bindings|
  {
    if n == 0 then sets
    else
      var prev := RegisterSetSpec(sets, rs, n - 1);
      var rb := rs.bindings[n - 1];
      if rb.kind == ReflSampledImage then prev
      else Bind(prev, false, rs.setNumber, rb.binding, Placeholder(rb.kind)).1
  }

  /** Registration of the first n reflected sets. */
  function RegisterAllSpec(sets: Sets, rss: seq<ReflectedSet>, n: nat): Sets
    requires n <= |rss|
  {
    if n == 0 then sets
    else RegisterSetSpec(RegisterAllSpec(sets, rss, n - 1), rss[n - 1], |rss[n - 1].bindings|)
  }

  /** Binding b has a buffer kind among the first n bindings of rs. */
  ghost predicate InSet(rs: ReflectedSet, n: nat, b: nat)
    requires n <= |rs.bindings|
  {
    exists j :: 0 <= j < n && rs.bindings[j].binding == b && rs.bindings[j].kind != ReflSampledImage
  }

  /** The (set, binding) pairs with a buffer kind among the first n reflected sets. */
  ghost predicate Reflects(rss: seq<ReflectedSet>, n: nat, s: nat, b: nat)
    requires n <= |rss|
  {
    exists i, j :: 0 <= i < n && 0 <= j < |rss[i].bindings| && rss[i].setNumber == s
      && rss[i].bindings[j].binding == b && rss[i].bindings[j].kind != ReflSampledImage
  }

  /** No set is present without a binding. */
  predicate NoEmptySet(sets: Sets)
  {
    forall s :: s in sets ==> sets[s] != map[]
  }

  /** Every binding registration creates is a null placeholder. */
  ghost predicate AllPlaceholders(sets: Sets)
  {
    forall s, b :: At(sets, s, b).Some? ==> At(sets, s, b).value.ptr == NullPtr && At(sets, s, b).value.size == 0
  }

  lemma {:induction false} RegisterSetCovers(sets: Sets, rs: ReflectedSet, n: nat)
    requires n <= |rs.bindings|
    ensures forall s, b :: At(RegisterSetSpec(sets, rs, n), s, b).Some? <==>
      At(sets, s, b).Some? || (s == rs.setNumber && InSet(rs, n, b))
    ensures AllPlaceholders(sets) ==> AllPlaceholders(RegisterSetSpec(sets, rs, n))
    ensures NoEmptySet(sets) ==> NoEmptySet(RegisterSetSpec(sets, rs, n))
  {
    if n > 0 {
      RegisterSetCovers(sets, rs, n - 1);
      var prev := RegisterSetSpec(sets, rs, n - 1);
      var rb := rs.bindings[n - 1];
      if rb.kind != ReflSampledImage {
        BindSpec(prev, false, rs.setNumber, rb.binding, Placeholder(rb.kind));
        var next := RegisterSetSpec(sets, rs, n);
        assert rb.binding in next[rs.setNumber];
      }
    }
  }

  /**
   * Registering reflection into an empty binder gives exactly the buffer
   * bindings reflection reports, each a null placeholder.
   */
  lemma {:induction false} RegistrationCovers(rss: seq<ReflectedSet>, n: nat)
    requires n <= |rss|
    ensures forall s, b :: At(RegisterAllSpec(map[], rss, n), s, b).Some? <==> Reflects(rss, n, s, b)
    ensures AllPlaceholders(RegisterAllSpec(map[], rss, n))
    ensures NoEmptySet(RegisterAllSpec(map[], rss, n))
  {
    if n > 0 {
      RegistrationCovers(rss, n - 1);
      var prev := RegisterAllSpec(map[], rss, n - 1);
      RegisterSetCovers(prev, rss[n - 1], |rss[n - 1].bindings|);
      forall s, b ensures Reflects(rss, n, s, b) <==> (Reflects(rss, n - 1, s, b) ||
        (s == rss[n - 1].setNumber && InSet(rss[n - 1], |rss[n - 1].bindings|, b)))
      {
        if Reflects(rss, n, s, b) && !Reflects(rss, n - 1, s, b) {
          var i, j :| 0 <= i < n && 0 <= j < |rss[i].bindings| && rss[i].setNumber == s
            && rss[i].bindings[j].binding == b && rss[i].bindings[j].kind != ReflSampledImage;
          assert i == n - 1;
        }
      }
    }
  }

  /**
   * After registration into an empty binder, a set exists exactly when
   * reflection reports a buffer binding in it; a set holding only sampled
   * images is never created.
   */
  lemma SetRegisteredIff(rss: seq<ReflectedSet>)
    ensures forall s :: s in RegisterAllSpec(map[], rss, |rss|) <==> SetHasBuffers(rss, s)
  {
    var sets := RegisterAllSpec(map[], rss, |rss|);
    RegistrationCovers(rss, |rss|);
    forall s
      ensures s in sets <==> SetHasBuffers(rss, s)
    {
      if s in sets {
        var b :| b in sets[s];
        assert At(sets, s, b).Some?;
      }
      if exists b :: Reflects(rss, |rss|, s, b) {
        var b :| Reflects(rss, |rss|, s, b);
        assert At(sets, s, b).Some?;
      }
    }
  }

  /** Reflection reports a buffer binding in set `s`. */
  ghost predicate SetHasBuffers(rss: seq<ReflectedSet>, s: nat)
  {
    exists b :: Reflects(rss, |rss|, s, b)
  }

  /** Every set reflection reports holds at least one buffer binding. */
  ghost predicate EverySetHasBuffers(rss: seq<ReflectedSet>)
  {
    forall i :: 0 <= i < |rss| ==> SetHasBuffers(rss, rss[i].setNumber)
  }

  /** Looking up every reported set after registration succeeds exactly when each holds a buffer binding. */
  lemma LayoutsResolveIff(rss: seq<ReflectedSet>)
    ensures (forall i :: 0 <= i < |rss| ==> rss[i].setNumber in RegisterAllSpec(map[], rss, |rss|)) <==> EverySetHasBuffers(rss)
  {
    SetRegisteredIff(rss);
  }

  // ---------------------------------------------------------------------------
  // Descriptor writes

  /** `VkDescriptorBufferInfo`. */
  datatype BufferInfo = BufferInfo(buffer: Handle, offset: U64, range: U64)

  /** `VkWriteDescriptorSet`, with `bufferInfo` the index of its entry in the info array. */
  datatype DescriptorWrite = DescriptorWrite(dstSet: Handle, dstBinding: nat, kind: DescriptorKind, bufferInfo: int)

  /** The arguments of one `vkUpdateDescriptorSets` call. */
  datatype DescriptorUpdate = DescriptorUpdate(writes: seq<DescriptorWrite>, infos: seq<BufferInfo>)

  datatype BinderError = UnknownSet | UnknownAllocation

  /** The bindings that point at a buffer. */
  function BoundBindings(bindings: map<nat, Binding>): set<nat>
  {
    set b | b in bindings && bindings[b].ptr != NullPtr
  }

  /** Every bound buffer belongs to a known allocation (`get_vkbuffer` finds it). */
  predicate Resolvable(bindings: map<nat, Binding>, buffers: map<nat, Handle>)
  {
    forall b :: b in bindings && bindings[b].ptr != NullPtr ==> bindings[b].ptr.allocId in buffers
  }

  /** A write (whatever its info index) describes binding `dstBinding` of `dst` with buffer info `info`. */
  predicate WriteDescribes(w: DescriptorWrite, info: BufferInfo, dst: Handle,
                           bindings: map<nat, Binding>, buffers: map<nat, Handle>)
  {
    && w.dstSet == dst
    && w.dstBinding in bindings && bindings[w.dstBinding].ptr != NullPtr
    && w.kind == bindings[w.dstBinding].kind
    && bindings[w.dstBinding].ptr.allocId in buffers
    && info == BufferInfo(buffers[bindings[w.dstBinding].ptr.allocId], bindings[w.dstBinding].ptr.offset, bindings[w.dstBinding].size)
  }

  /** The bindings a sequence of writes targets. */
  function Targets(writes: seq<DescriptorWrite>): set<nat>
  {
    set k | 0 <= k < |writes| :: writes[k].dstBinding
  }

  lemma TargetsAppend(writes: seq<DescriptorWrite>, w: DescriptorWrite)
    ensures Targets(writes + [w]) == Targets(writes) + {w.dstBinding}
  {
    var ws := writes + [w];
    assert ws[|writes|] == w;
    forall x | x in Targets(writes) ensures x in Targets(ws) {
      var k :| 0 <= k < |writes| && writes[k].dstBinding == x;
      assert ws[k] == writes[k];
    }
  }

  /** The writes target distinct bindings. */
  predicate DistinctTargets(writes: seq<DescriptorWrite>)
  {
    forall i, j :: 0 <= i < j < |writes| ==> writes[i].dstBinding != writes[j].dstBinding
  }

  /** One write per bound binding, each matched with its buffer info. */
  predicate UpdateWritesSet(u: DescriptorUpdate, dst: Handle, bindings: map<nat, Binding>, buffers: map<nat, Handle>)
  {
    && |u.writes| == |u.infos|
    && (forall k :: 0 <= k < |u.writes| ==> u.writes[k].bufferInfo == k && WriteDescribes(u.writes[k], u.infos[k], dst, bindings, buffers))
    && DistinctTargets(u.writes)
    && Targets(u.writes) == BoundBindings(bindings)
  }

  class ResourceBinder {
    var sets: Sets
    var locked: bool

    constructor ()
      ensures sets == map[] && !locked
    {
      sets := map[];
      locked := false;
    }

    /** The body shared by `rw_buffer` and `buffer`. */
    method Store(s: nat, b: nat, binding: Binding) returns (outcome: BindOutcome)
      modifies this
      ensures (outcome, sets) == Bind(old(sets), locked, s, b, binding)
      ensures locked == old(locked)
    {
      if s !in sets {
        if locked {
          return Ignored;
        }
        sets := sets[s := map[]];
      }
      var bindings := sets[s];
      if locked && b !in bindings {
        return Ignored;
      }
      if locked && bindings[b].kind != binding.kind {
        return KindMismatch;
      }
      sets := sets[s := bindings[b := binding]];
      assert sets == old(sets)[s := bindings[b := binding]];
      return Stored;
    }

    /** `rw_buffer(set, binding, ptr, size)`. */
    method RwBuffer(s: nat, b: nat, ptr: DevicePtr, size: U64) returns (outcome: BindOutcome)
      modifies this
      ensures (outcome, sets) == Bind(old(sets), locked, s, b, Binding(StorageBuffer, ptr, size))
      ensures locked == old(locked)
    {
      outcome := Store(s, b, Binding(StorageBuffer, ptr, size));
    }

    /** `rw_buffer(set, binding, alloc)`: the whole allocation from offset 0. */
    method RwBufferAlloc(s: nat, b: nat, alloc: DeviceAllocation) returns (outcome: BindOutcome)
      modifies this
      ensures (outcome, sets) == Bind(old(sets), locked, s, b, Binding(StorageBuffer, PtrOf(alloc, 0), VkWholeSize))
      ensures locked == old(locked)
    {
      outcome := RwBuffer(s, b, PtrOf(alloc, 0), VkWholeSize);
    }

    /** `buffer(set, binding, ptr, size)`. */
    method Buffer(s: nat, b: nat, ptr: DevicePtr, size: U64) returns (outcome: BindOutcome)
      modifies this
      ensures (outcome, sets) == Bind(old(sets), locked, s, b, Binding(UniformBuffer, ptr, size))
      ensures locked == old(locked)
    {
      outcome := Store(s, b, Binding(UniformBuffer, ptr, size));
    }

    /** `buffer(set, binding, alloc)`. */
    method BufferAlloc(s: nat, b: nat, alloc: DeviceAllocation) returns (outcome: BindOutcome)
      modifies this
      ensures (outcome, sets) == Bind(old(sets), locked, s, b, Binding(UniformBuffer, PtrOf(alloc, 0), VkWholeSize))
      ensures locked == old(locked)
    {
      outcome := Buffer(s, b, PtrOf(alloc, 0), VkWholeSize);
    }

    /** `lock_layout`. */
    method LockLayout()
      modifies this
      ensures locked && sets == old(sets)
    {
      locked := true;
    }

    /** `get_set(set)`. */
    function GetSet(s: nat): (r: Result<map<nat, Binding>, BinderError>)
      reads this
      ensures r.Ok? <==> s in sets
      ensures r.Ok? ==> LayoutOf(r.value) == Layouts(sets)[s]
    {
      if s in sets then Ok(sets[s]) else Err(UnknownSet)
    }

    /** Registers the buffer bindings of one reflected set. */
    method RegisterSet(rs: ReflectedSet)
      requires !locked
      modifies this
      ensures !locked && sets == RegisterSetSpec(old(sets), rs, |rs.bindings|)
    {
      for i := 0 to |rs.bindings|
        invariant !locked && sets == RegisterSetSpec(old(sets), rs, i)
      {
        var rb := rs.bindings[i];
        if rb.kind == ReflStorageBuffer {
          var _ := RwBuffer(rs.setNumber, rb.binding, NullPtr, 0);
        } else if rb.kind == ReflUniformBuffer {
          var _ := Buffer(rs.setNumber, rb.binding, NullPtr, 0);
        }
      }
    }

    /**
     * The registration half of `create_descriptor_set_layout`: every storage
     * and uniform buffer reflection reports becomes a null binding; returns
     * the set numbers reflection mentions.
     */
    method RegisterReflection(rss: seq<ReflectedSet>) returns (setsUsed: set<nat>)
      requires !locked
      modifies this
      ensures !locked && sets == RegisterAllSpec(old(sets), rss, |rss|)
      ensures setsUsed == set i | 0 <= i < |rss| :: rss[i].setNumber
    {
      setsUsed := {};
      for i := 0 to |rss|
        invariant !locked && sets == RegisterAllSpec(old(sets), rss, i)
        invariant setsUsed == set k | 0 <= k < i :: rss[k].setNumber
      {
        RegisterSet(rss[i]);
        setsUsed := setsUsed + {rss[i].setNumber};
      }
    }

    /**
     * `write_to_set(index, device, set)`: the descriptor update for set
     * `index` of the binder, written into descriptor set `dst`. `buffers` is
     * the device's allocation table (allocation id to buffer handle). It
     * fails when the set is unknown or a bound buffer's allocation is not.
     */
    method WriteToSet(index: nat, dst: Handle, buffers: map<nat, Handle>) returns (r: Result<DescriptorUpdate, BinderError>)
      ensures index !in sets ==> r == Err(UnknownSet)
      ensures index in sets ==> (r.Ok? <==> Resolvable(sets[index], buffers))
      ensures r.Ok? ==> UpdateWritesSet(r.value, dst, sets[index], buffers)
    {
      if index !in sets {
        return Err(UnknownSet);
      }
      var collected := CollectWrites(sets[index], dst, buffers);
      if collected.Err? {
        return Err(collected.error);
      }
      var (writes, infos) := collected.value;
      writes := LinkInfos(writes);
      return Ok(DescriptorUpdate(writes, infos));
    }
  }

  /** What the first loop of `write_to_set` knows once the bindings outside `todo` are visited. */
  predicate CollectInv(bindings: map<nat, Binding>, dst: Handle, buffers: map<nat, Handle>,
                       writes: seq<DescriptorWrite>, infos: seq<BufferInfo>, todo: set<nat>)
  {
    && todo <= bindings.Keys
    && |writes| == |infos|
    && (forall k :: 0 <= k < |writes| ==> WriteDescribes(writes[k], infos[k], dst, bindings, buffers))
    && (forall k :: 0 <= k < |writes| ==> writes[k].dstBinding !in todo)
    && DistinctTargets(writes)
    && Targets(writes) == BoundBindings(bindings) - todo
    && (forall b :: b in bindings && b !in todo && bindings[b].ptr != NullPtr ==> bindings[b].ptr.allocId in buffers)
  }

  /** The write and buffer info for one visited binding. */
  function VisitWrites(bindings: map<nat, Binding>, dst: Handle, buffers: map<nat, Handle>,
                       writes: seq<DescriptorWrite>, infos: seq<BufferInfo>, b: nat): (seq<DescriptorWrite>, seq<BufferInfo>)
    requires b in bindings
    requires bindings[b].ptr != NullPtr ==> bindings[b].ptr.allocId in buffers
  {
    var binding := bindings[b];
    if binding.ptr == NullPtr then (writes, infos)
    else (writes + [DescriptorWrite(dst, b, binding.kind, -1)],
          infos + [BufferInfo(buffers[binding.ptr.allocId], binding.ptr.offset, binding.size)])
  }

  lemma CollectStep(bindings: map<nat, Binding>, dst: Handle, buffers: map<nat, Handle>,
                    writes: seq<DescriptorWrite>, infos: seq<BufferInfo>, todo: set<nat>, b: nat)
    requires CollectInv(bindings, dst, buffers, writes, infos, todo)
    requires b in todo
    requires bindings[b].ptr != NullPtr ==> bindings[b].ptr.allocId in buffers
    ensures var (writes', infos') := VisitWrites(bindings, dst, buffers, writes, infos, b);
      CollectInv(bindings, dst, buffers, writes', infos', todo - {b})
  {
    if bindings[b].ptr != NullPtr {
      TargetsAppend(writes, DescriptorWrite(dst, b, bindings[b].kind, -1));
    }
  }

  /**
   * The first loop of `write_to_set`: one write and one buffer info per bound
   * binding, in the map's iteration order.
   */
  method CollectWrites(bindings: map<nat, Binding>, dst: Handle, buffers: map<nat, Handle>)
    returns (r: Result<(seq<DescriptorWrite>, seq<BufferInfo>), BinderError>)
    ensures r.Ok? <==> Resolvable(bindings, buffers)
    ensures r.Err? ==> r.error == UnknownAllocation
    ensures r.Ok? ==> var (writes, infos) := r.value;
      && |writes| == |infos|
      && (forall k :: 0 <= k < |writes| ==> WriteDescribes(writes[k], infos[k], dst, bindings, buffers))
      && DistinctTargets(writes)
      && Targets(writes) == BoundBindings(bindings)
  {
    var infos: seq<BufferInfo> := [];
    var writes: seq<DescriptorWrite> := [];
    var todo := bindings.Keys;
    while todo != {}
      invariant CollectInv(bindings, dst, buffers, writes, infos, todo)
      decreases |todo|
    {
      var b := Pick(todo);
      var binding := bindings[b];
      if binding.ptr != NullPtr && binding.ptr.allocId !in buffers {
        return Err(UnknownAllocation);
      }
      CollectStep(bindings, dst, buffers, writes, infos, todo, b);
      if binding.ptr != NullPtr {
        infos := infos + [BufferInfo(buffers[binding.ptr.allocId], binding.ptr.offset, binding.size)];
        writes := writes + [DescriptorWrite(dst, b, binding.kind, -1)];
      }
      todo := todo - {b};
    }
    return Ok((writes, infos));
  }

  /** The second loop of `write_to_set`: the k-th write gets the k-th buffer info. */
  method LinkInfos(writes: seq<DescriptorWrite>) returns (linked: seq<DescriptorWrite>)
    ensures |linked| == |writes|
    ensures forall k :: 0 <= k < |writes| ==> linked[k] == writes[k].(bufferInfo := k)
  {
    linked := writes;
    for i := 0 to |writes|
      invariant |linked| == |writes|
      invariant forall k :: 0 <= k < |writes| ==> linked[k] == if k < i then writes[k].(bufferInfo := k) else writes[k]
    {
      linked := linked[i := linked[i].(bufferInfo := i)];
    }
  }
}
