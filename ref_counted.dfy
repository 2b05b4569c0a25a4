/**
 * The process-wide reference-count table of the C API (c_api/src/ref_counted.h):
 * a map from an object's address to an `Object` record holding that address and
 * its count. Creating an entry starts the count at one, `AddRef` adds one,
 * `Release` subtracts one and destroys the object and erases its entry when the
 * count reaches zero. The global mutex is not modelled: every call is atomic.
 */
module RefCounted {
  import opened Wrappers

  /** An address of a host object (`void *`). */
  type Ptr = nat

  /** `RefCounted::Object`: the object's address and its reference count. */
  datatype Object = Object(ptr: Ptr, ref: int)

  /** Why an operation fails: `unordered_map::at` throws on an unknown key. */
  datatype PoolError = UnknownPointer

  /** `Object(void *obj)`: a fresh record owns one reference. */
  function NewObject(p: Ptr): (o: Object)
    ensures o.ptr == p && o.ref == 1
  {
    Object(p, 1)
  }

  /** `Object::add_ref`. */
  function AddRefObject(o: Object): (o': Object)
    ensures o'.ptr == o.ptr && o'.ref == o.ref + 1
  {
    o.(ref := o.ref + 1)
  }

  /** `Object::release_ref`: the decremented record and the count it now holds. */
  function ReleaseRefObject(o: Object): (r: (Object, int))
    ensures r.0.ptr == o.ptr && r.1 == r.0.ref == o.ref - 1
  {
    var o' := o.(ref := o.ref - 1);
    (o', o'.ref)
  }

  /** Every entry is stored under its own address and holds at least one reference. */
  ghost predicate WellFormed(pool: map<Ptr, Object>)
  {
    forall p :: p in pool ==> pool[p].ptr == p && pool[p].ref >= 1
  }

  /** `new_ref_counted` on a pool value: `emplace` never overwrites an entry. */
  function Create(pool: map<Ptr, Object>, p: Ptr): (pool': map<Ptr, Object>)
    ensures p in pool'
    ensures p !in pool ==> pool'[p].ptr == p && pool'[p].ref == 1
    ensures p in pool ==> pool' == pool
    ensures forall q :: q != p ==> (q in pool' <==> q in pool) && (q in pool ==> pool'[q] == pool[q])
  {
    if p in pool then pool else pool[p := NewObject(p)]
  }

  /** `add_ref` on a pool value. */
  function AddRef(pool: map<Ptr, Object>, p: Ptr): (r: Result<map<Ptr, Object>, PoolError>)
    ensures r.Err? <==> p !in pool
    ensures r.Ok? ==> r.value.Keys == pool.Keys && r.value[p].ptr == pool[p].ptr && r.value[p].ref == pool[p].ref + 1
    ensures r.Ok? ==> forall q :: q in pool && q != p ==> r.value[q] == pool[q]
  {
    if p !in pool then Err(UnknownPointer) else Ok(pool[p := AddRefObject(pool[p])])
  }

  /**
   * `release` on a pool value: the new pool and whether the object was
   * destroyed (its count reached zero and its key was erased).
   */
  function Release(pool: map<Ptr, Object>, p: Ptr): (r: Result<(map<Ptr, Object>, bool), PoolError>)
    ensures r.Err? <==> p !in pool
    ensures r.Ok? ==> (r.value.1 <==> pool[p].ref - 1 == 0)
    ensures r.Ok? && r.value.1 ==> r.value.0 == pool - {p}
    ensures r.Ok? && !r.value.1 ==>
      r.value.0.Keys == pool.Keys && r.value.0[p].ptr == pool[p].ptr && r.value.0[p].ref == pool[p].ref - 1
    ensures r.Ok? ==> forall q :: q in pool && q != p ==> q in r.value.0 && r.value.0[q] == pool[q]
  {
    if p !in pool then Err(UnknownPointer)
    else
      var (o, count) := ReleaseRefObject(pool[p]);
      if count == 0 then Ok((pool - {p}, true)) else Ok((pool[p := o], false))
  }

  /** The three operations keep every entry keyed by its address with a positive count. */
  lemma {:induction false} OperationsPreserveWellFormed(pool: map<Ptr, Object>, p: Ptr)
    requires WellFormed(pool)
    ensures WellFormed(Create(pool, p))
    ensures AddRef(pool, p).Ok? ==> WellFormed(AddRef(pool, p).value)
    ensures Release(pool, p).Ok? ==> WellFormed(Release(pool, p).value.0)
  {
    var c := Create(pool, p);
    forall q | q in c ensures c[q].ptr == q && c[q].ref >= 1 {
      if q != p || p in pool { assert c[q] == pool[q]; }
    }
    if p in pool {
      var a := AddRef(pool, p).value;
      forall q | q in a ensures a[q].ptr == q && a[q].ref >= 1 {
        if q != p { assert a[q] == pool[q]; }
      }
      var (r, destroyed) := Release(pool, p).value;
      forall q | q in r ensures r[q].ptr == q && r[q].ref >= 1 {
        if q != p { assert r[q] == pool[q]; }
      }
    }
  }

  /** Taking a reference and giving it back restores the table exactly. */
  lemma {:induction false} AddRefThenRelease(pool: map<Ptr, Object>, p: Ptr)
    requires WellFormed(pool) && p in pool
    ensures AddRef(pool, p).Ok?
    ensures Release(AddRef(pool, p).value, p) == Ok((pool, false))
  {
    var a := AddRef(pool, p).value;
    assert a[p].ref == pool[p].ref + 1 >= 2;
    var r := Release(a, p).value.0;
    assert r[p] == pool[p];
    assert r == pool;
  }

  /** Registering a fresh object and releasing it once destroys it and leaves the table as it was. */
  lemma {:induction false} CreateThenRelease(pool: map<Ptr, Object>, p: Ptr)
    requires p !in pool
    ensures Release(Create(pool, p), p) == Ok((pool, true))
  {
    assert Create(pool, p) - {p} == pool;
  }

  /** The table of `RefCounted::object_pool`, updated in place by the three entry points. */
  class ObjectPool {
    var pool: map<Ptr, Object>
    /** Addresses whose object was deleted by `destroy<T>`, in order. */
    var destroyed: seq<Ptr>

    ghost predicate Valid()
      reads this
    {
      WellFormed(pool)
    }

    constructor ()
      ensures Valid() && pool == map[] && destroyed == []
    {
      pool := map[];
      destroyed := [];
    }

    /** `new_ref_counted(ptr)`. */
    method NewRefCounted(p: Ptr)
      requires Valid()
      modifies this
      ensures Valid() && pool == Create(old(pool), p) && destroyed == old(destroyed)
    {
      OperationsPreserveWellFormed(pool, p);
      if p !in pool {
        pool := pool[p := NewObject(p)];
      }
    }

    /** `add_ref(ptr)`: fails (`at` throws) on an unregistered pointer. */
    method AddRefPtr(p: Ptr) returns (r: Result<(), PoolError>)
      requires Valid()
      modifies this
      ensures Valid() && destroyed == old(destroyed)
      ensures r.Err? <==> p !in old(pool)
      ensures r.Ok? ==> pool == AddRef(old(pool), p).value
      ensures r.Err? ==> pool == old(pool)
    {
      if p !in pool {
        return Err(UnknownPointer);
      }
      OperationsPreserveWellFormed(pool, p);
      pool := pool[p := AddRefObject(pool[p])];
      r := Ok(());
    }

    /** `release(ptr)`: destroys the object and erases its entry when the count reaches zero. */
    method ReleasePtr(p: Ptr) returns (r: Result<(), PoolError>)
      requires Valid()
      modifies this
      ensures Valid()
      ensures r.Err? <==> p !in old(pool)
      ensures r.Ok? ==> pool == Release(old(pool), p).value.0
      ensures r.Ok? ==> destroyed == old(destroyed) + (if Release(old(pool), p).value.1 then [p] else [])
      ensures r.Err? ==> pool == old(pool) && destroyed == old(destroyed)
    {
      if p !in pool {
        return Err(UnknownPointer);
      }
      OperationsPreserveWellFormed(pool, p);
      var (o, count) := ReleaseRefObject(pool[p]);
      pool := pool[p := o];
      if count == 0 {
        destroyed := destroyed + [p];
        pool := pool - {p};
      }
      r := Ok(());
    }
  }
}
