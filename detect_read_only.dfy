/**
 * Access analysis over offloaded tasks (taichi/transforms/detect_read_only.cpp).
 *
 * The IR is abstracted to the statements the pass looks at: global loads and
 * stores, whose pointer operand is either an external (argument) pointer, a
 * pointer into an SNode, or absent; every other statement is `OtherStmt`.
 * The statements of a task are listed in the order the visitor reaches them.
 */
module DetectReadOnly {
  import opened Wrappers

  /** The pointer operand of a global load or store. */
  datatype PtrOperand =
    | ExternalPtr(argId: int)   // an `ExternalPtrStmt` whose base is `ArgLoadStmt(arg_id)`
    | SNodePtr(snode: int)      // a `GlobalPtrStmt` into an SNode
    | NoOperand                 // a null operand

  datatype Stmt =
    | GlobalLoad(src: PtrOperand)
    | GlobalStore(dest: PtrOperand)
    | OtherStmt

  /** The flags `mem_access_opt` can hold for an SNode. */
  datatype SNodeAccessFlag = ReadOnly | OtherFlag(code: nat)

  /** `ExternalPtrAccess::READ` and `ExternalPtrAccess::WRITE`, as bits of a C `int`. */
  const READ: bv32 := 1
  const WRITE: bv32 := 2

  /** The SNodes a task reads (first) and writes (second). */
  function GatherSNodeReadWrites(body: seq<Stmt>): (rw: (set<int>, set<int>))
    ensures forall s :: s in rw.0 <==> exists i :: 0 <= i < |body| && body[i] == GlobalLoad(SNodePtr(s))
    ensures forall s :: s in rw.1 <==> exists i :: 0 <= i < |body| && body[i] == GlobalStore(SNodePtr(s))
  {
    if body == [] then ({}, {})
    else
      var rest := GatherSNodeReadWrites(body[1..]);
      assert forall i :: 1 <= i < |body| ==> body[i] == body[1..][i - 1];
      match body[0]
      case GlobalLoad(SNodePtr(s)) => (rest.0 + {s}, rest.1)
      case GlobalStore(SNodePtr(s)) => (rest.0, rest.1 + {s})
      case _ => rest
  }

  /** `mem_access_opt.add_flag(snode, flag)`. */
  function AddFlag(opt: map<int, set<SNodeAccessFlag>>, s: int, f: SNodeAccessFlag): map<int, set<SNodeAccessFlag>>
  {
    opt[s := (if s in opt then opt[s] else {}) + {f}]
  }

  /** The flag table after `detect_read_only_in_task`: `read_only` added to every SNode read and never written. */
  function ReadOnlyFlagged(opt: map<int, set<SNodeAccessFlag>>, readSet: set<int>, writeSet: set<int>): map<int, set<SNodeAccessFlag>>
  {
    map s | s in opt.Keys + (readSet - writeSet) :: (if s in opt then opt[s] else {}) + (if s in readSet - writeSet then {ReadOnly} else {})
  }

  /** Exactly the SNodes read and not written gain `read_only`; all other entries are untouched. */
  lemma ReadOnlyFlaggedSpec(opt: map<int, set<SNodeAccessFlag>>, readSet: set<int>, writeSet: set<int>, s: int)
    ensures s in readSet && s !in writeSet ==> s in ReadOnlyFlagged(opt, readSet, writeSet) && ReadOnly in ReadOnlyFlagged(opt, readSet, writeSet)[s]
    ensures s in writeSet || s !in readSet ==>
              (s in ReadOnlyFlagged(opt, readSet, writeSet) <==> s in opt) &&
              (s in opt ==> ReadOnlyFlagged(opt, readSet, writeSet)[s] == opt[s])
    ensures s in opt ==> opt[s] <= ReadOnlyFlagged(opt, readSet, writeSet)[s]
  {
  }

  /** Running the pass twice flags nothing more than running it once. */
  lemma ReadOnlyFlaggedIdempotent(opt: map<int, set<SNodeAccessFlag>>, readSet: set<int>, writeSet: set<int>)
    ensures ReadOnlyFlagged(ReadOnlyFlagged(opt, readSet, writeSet), readSet, writeSet) == ReadOnlyFlagged(opt, readSet, writeSet)
  {
  }

  /** Flagging a set grown by one SNode is one more `add_flag` (or none, when the SNode is written). */
  lemma ReadOnlyFlaggedStep(opt: map<int, set<SNodeAccessFlag>>, done: set<int>, writeSet: set<int>, s: int)
    requires s !in done
    ensures ReadOnlyFlagged(opt, done + {s}, writeSet) ==
              if s in writeSet then ReadOnlyFlagged(opt, done, writeSet)
              else AddFlag(ReadOnlyFlagged(opt, done, writeSet), s, ReadOnly)
  {
    var before, after := ReadOnlyFlagged(opt, done, writeSet), ReadOnlyFlagged(opt, done + {s}, writeSet);
    var expected := if s in writeSet then before else AddFlag(before, s, ReadOnly);
    assert after.Keys == expected.Keys;
    forall q | q in after ensures after[q] == expected[q] {
    }
  }

  /** Flagging no SNode leaves the table as it is. */
  lemma ReadOnlyFlaggedNone(opt: map<int, set<SNodeAccessFlag>>, writeSet: set<int>)
    ensures ReadOnlyFlagged(opt, {}, writeSet) == opt
  {
    var r := ReadOnlyFlagged(opt, {}, writeSet);
    assert r.Keys == opt.Keys;
    forall q | q in r ensures r[q] == opt[q] {
    }
  }

  /** An `OffloadedStmt`: its body (read-only for this pass) and its SNode access flags. */
  class OffloadedTask {
    const body: seq<Stmt>
    var memAccessOpt: map<int, set<SNodeAccessFlag>>

    constructor (body: seq<Stmt>, opt: map<int, set<SNodeAccessFlag>>)
      ensures this.body == body && memAccessOpt == opt
    {
      this.body := body;
      memAccessOpt := opt;
    }

    /** `detect_read_only_in_task`: walks the read set and flags each SNode absent from the write set. */
    method DetectReadOnlyInTask()
      modifies this
      ensures memAccessOpt == ReadOnlyFlagged(old(memAccessOpt), GatherSNodeReadWrites(body).0, GatherSNodeReadWrites(body).1)
    {
      var accessed := GatherSNodeReadWrites(body);
      var todo := accessed.0;
      ghost var done: set<int> := {};
      ReadOnlyFlaggedNone(memAccessOpt, accessed.1);
      while todo != {}
        invariant todo + done == accessed.0 && todo !! done
        invariant memAccessOpt == ReadOnlyFlagged(old(memAccessOpt), done, accessed.1)
        decreases todo
      {
        var s := Pick(todo);
        ReadOnlyFlaggedStep(old(memAccessOpt), done, accessed.1, s);
        if s !in accessed.1 {
          memAccessOpt := AddFlag(memAccessOpt, s, ReadOnly);
        }
        todo := todo - {s};
        done := done + {s};
      }
    }
  }

  /** The root of `detect_read_only`: a block of offloaded tasks, or one task. */
  datatype IRRoot = Block(tasks: seq<OffloadedTask>) | Single(task: OffloadedTask)

  function RootTasks(root: IRRoot): seq<OffloadedTask>
  {
    match root
    case Block(ts) => ts
    case Single(t) => [t]
  }

  /** `detect_read_only`: applies the per-task rule to every task of the root, once each. */
  method DetectReadOnlyPass(root: IRRoot)
    requires forall i, j :: 0 <= i < j < |RootTasks(root)| ==> RootTasks(root)[i] != RootTasks(root)[j]
    modifies set t | t in RootTasks(root)
    ensures forall t :: t in RootTasks(root) ==>
              t.memAccessOpt == ReadOnlyFlagged(old(t.memAccessOpt), GatherSNodeReadWrites(t.body).0, GatherSNodeReadWrites(t.body).1)
  {
    var tasks := RootTasks(root);
    if root.Single? {
      root.task.DetectReadOnlyInTask();
      return;
    }
    var i := 0;
    while i < |tasks|
      invariant 0 <= i <= |tasks|
      invariant forall k :: 0 <= k < i ==>
                  tasks[k].memAccessOpt == ReadOnlyFlagged(old(tasks[k].memAccessOpt), GatherSNodeReadWrites(tasks[k].body).0, GatherSNodeReadWrites(tasks[k].body).1)
      invariant forall k :: i <= k < |tasks| ==> tasks[k].memAccessOpt == old(tasks[k].memAccessOpt)
    {
      tasks[i].DetectReadOnlyInTask();
      i := i + 1;
    }
  }

  // ---------------------------------------------------------------------------
  // External pointer access

  /** The argument id a statement accesses through an external pointer, if any, and how. */
  function Accumulate(m: map<int, bv32>, st: Stmt): map<int, bv32>
  {
    match st
    case GlobalLoad(ExternalPtr(a)) => Mark(m, a, READ)
    case GlobalStore(ExternalPtr(a)) => Mark(m, a, WRITE)
    case _ => m
  }

  /** `(*map_)[arg_id] |= flag`, where a missing entry starts from zero. */
  function Mark(m: map<int, bv32>, a: int, flag: bv32): map<int, bv32>
  {
    m[a := if a in m then m[a] | flag else flag]
  }

  /** The access map after visiting `stmts` in order, starting from an empty map. */
  function AccessMap(stmts: seq<Stmt>): map<int, bv32>
  {
    if stmts == [] then map[] else Accumulate(AccessMap(stmts[..|stmts| - 1]), stmts[|stmts| - 1])
  }

  predicate Loads(stmts: seq<Stmt>, a: int)
  {
    exists i :: 0 <= i < |stmts| && stmts[i] == GlobalLoad(ExternalPtr(a))
  }

  predicate Stores(stmts: seq<Stmt>, a: int)
  {
    exists i :: 0 <= i < |stmts| && stmts[i] == GlobalStore(ExternalPtr(a))
  }

  /**
   * The entry of `m` for argument `a` is as a visit that saw a load of it
   * exactly when `loads`, and a store exactly when `stores`, leaves it.
   */
  ghost predicate EntryRecords(m: map<int, bv32>, a: int, loads: bool, stores: bool)
  {
    && (a in m <==> loads || stores)
    && (a in m ==>
          (m[a] & READ != 0 <==> loads) && (m[a] & WRITE != 0 <==> stores) && m[a] & !(READ | WRITE) == 0)
  }

  /**
   * The access map records exactly the arguments read or written through an
   * external pointer; READ is set iff some load reads the argument and WRITE
   * iff some store writes it, and no other bit is ever set.
   */
  lemma {:induction false} AccessMapSpec(stmts: seq<Stmt>, a: int)
    ensures a in AccessMap(stmts) <==> Loads(stmts, a) || Stores(stmts, a)
    ensures a in AccessMap(stmts) ==>
              (AccessMap(stmts)[a] & READ != 0 <==> Loads(stmts, a)) &&
              (AccessMap(stmts)[a] & WRITE != 0 <==> Stores(stmts, a)) &&
              AccessMap(stmts)[a] & !(READ | WRITE) == 0
  {
    AccessMapRecords(stmts, a);
  }

  lemma {:induction false} AccessMapRecords(stmts: seq<Stmt>, a: int)
    ensures EntryRecords(AccessMap(stmts), a, Loads(stmts, a), Stores(stmts, a))
  {
    if stmts != [] {
      var pre := stmts[..|stmts| - 1];
      AccessMapRecords(pre, a);
      LastStatement(stmts, a);
      AccumulateRecords(AccessMap(pre), stmts[|stmts| - 1], a, Loads(pre, a), Stores(pre, a));
    }
  }

  /** One visited statement: a load of `a` adds READ, a store adds WRITE, anything else leaves the entry alone. */
  lemma AccumulateRecords(m: map<int, bv32>, st: Stmt, a: int, loads: bool, stores: bool)
    requires EntryRecords(m, a, loads, stores)
    ensures EntryRecords(Accumulate(m, st), a, loads || st == GlobalLoad(ExternalPtr(a)), stores || st == GlobalStore(ExternalPtr(a)))
  {
    if st == GlobalLoad(ExternalPtr(a)) {
      FlagBits(a in m, if a in m then m[a] else 0, READ);
    } else if st == GlobalStore(ExternalPtr(a)) {
      FlagBits(a in m, if a in m then m[a] else 0, WRITE);
    }
  }

  lemma LastStatement(stmts: seq<Stmt>, a: int)
    requires stmts != []
    ensures var pre, last := stmts[..|stmts| - 1], stmts[|stmts| - 1];
      && (Loads(stmts, a) <==> Loads(pre, a) || last == GlobalLoad(ExternalPtr(a)))
      && (Stores(stmts, a) <==> Stores(pre, a) || last == GlobalStore(ExternalPtr(a)))
  {
    var pre := stmts[..|stmts| - 1];
    assert forall i :: 0 <= i < |pre| ==> pre[i] == stmts[i];
  }

  /** The bits of an entry after one flag is or-ed in, starting from zero when the entry is missing. */
  lemma FlagBits(present: bool, u: bv32, flag: bv32)
    requires flag == READ || flag == WRITE
    requires present ==> u & !(READ | WRITE) == 0
    ensures var v := if present then u | flag else flag;
      && (v & READ != 0 <==> flag == READ || (present && u & READ != 0))
      && (v & WRITE != 0 <==> flag == WRITE || (present && u & WRITE != 0))
      && v & !(READ | WRITE) == 0
  {
  }

  /** After a load and a store of the same argument the map holds READ|WRITE, whatever came before. */
  lemma LoadAndStoreGiveReadWrite(stmts: seq<Stmt>, a: int)
    requires Loads(stmts, a) && Stores(stmts, a)
    ensures a in AccessMap(stmts) && AccessMap(stmts)[a] == READ | WRITE
  {
    AccessMapSpec(stmts, a);
    var v := AccessMap(stmts)[a];
    assert v & READ != 0 && v & WRITE != 0 && v & !(READ | WRITE) == 0;
  }

  /** Every bit set in `u` is set in `v`. */
  predicate BitsWithin(u: bv32, v: bv32)
  {
    u & v == u
  }

  /** `big` has every key of `small`, with at least the bits `small` has there. */
  ghost predicate Covers(small: map<int, bv32>, big: map<int, bv32>)
  {
    forall a :: a in small ==> a in big && BitsWithin(small[a], big[a])
  }

  /** One visited statement keeps every key and every bit already present. */
  lemma AccumulateCovers(m: map<int, bv32>, st: Stmt)
    ensures Covers(m, Accumulate(m, st))
  {
    match st
    case GlobalLoad(ExternalPtr(a)) => MarkCovers(m, a, READ);
    case GlobalStore(ExternalPtr(a)) => MarkCovers(m, a, WRITE);
    case _ => MarkCovers(m, 0, 0);
  }

  /** Setting a flag keeps every key and every bit already present. */
  lemma MarkCovers(m: map<int, bv32>, a: int, flag: bv32)
    ensures Covers(m, Mark(m, a, flag)) && Covers(m, m)
  {
    forall b | b in m ensures BitsWithin(m[b], m[b]) && BitsWithin(m[b], Mark(m, a, flag)[b]) {
      OrKeeps(m[b], flag);
    }
  }

  /** Setting bits keeps the ones already set. */
  lemma OrKeeps(u: bv32, flags: bv32)
    ensures BitsWithin(u, u) && BitsWithin(u, u | flags)
  {
  }

  lemma CoversTransitive(x: map<int, bv32>, y: map<int, bv32>, z: map<int, bv32>)
    requires Covers(x, y) && Covers(y, z)
    ensures Covers(x, z)
  {
    forall a | a in x ensures a in z && BitsWithin(x[a], z[a]) {
      BitsTransitive(x[a], y[a], z[a]);
    }
  }

  lemma BitsTransitive(u: bv32, v: bv32, w: bv32)
    requires BitsWithin(u, v) && BitsWithin(v, w)
    ensures BitsWithin(u, w)
  {
  }

  /** Flags only accumulate: the map after a prefix of the statements is covered by the map after all of them. */
  lemma {:induction false} AccessMapMonotone(stmts: seq<Stmt>, n: nat)
    requires n <= |stmts|
    ensures Covers(AccessMap(stmts[..n]), AccessMap(stmts))
  {
    if n == |stmts| {
      assert stmts[..n] == stmts;
    } else {
      var pre := stmts[..|stmts| - 1];
      assert pre[..n] == stmts[..n];
      AccessMapMonotone(pre, n);
      AccumulateCovers(AccessMap(pre), stmts[|stmts| - 1]);
      CoversTransitive(AccessMap(stmts[..n]), AccessMap(pre), AccessMap(stmts));
    }
  }

  /**
   * `ExternalPtrAccessVisitor`: the source holds a reference to the caller's map
   * and updates it in place; this class holds its own map, initialised from the
   * caller's, and the caller reads it back after the visit.
   */
  class ExternalPtrAccessVisitor {
    var accessMap: map<int, bv32>

    constructor (m: map<int, bv32>)
      ensures accessMap == m
    {
      accessMap := m;
    }

    /** `visit(GlobalLoadStmt *)`: ORs READ into the argument's entry, or creates it as READ. */
    method VisitLoad(src: PtrOperand)
      modifies this
      ensures accessMap == Accumulate(old(accessMap), GlobalLoad(src))
    {
      if src.ExternalPtr? {
        var a := src.argId;
        if a in accessMap {
          accessMap := accessMap[a := accessMap[a] | READ];
        } else {
          accessMap := accessMap[a := READ];
        }
      }
    }

    /** `visit(GlobalStoreStmt *)`: ORs WRITE into the argument's entry, or creates it as WRITE. */
    method VisitStore(dest: PtrOperand)
      modifies this
      ensures accessMap == Accumulate(old(accessMap), GlobalStore(dest))
    {
      if dest.ExternalPtr? {
        var a := dest.argId;
        if a in accessMap {
          accessMap := accessMap[a := accessMap[a] | WRITE];
        } else {
          accessMap := accessMap[a := WRITE];
        }
      }
    }
  }

  /** `detect_external_ptr_access_in_task`: visits the task's statements with a fresh map and returns it. */
  method DetectExternalPtrAccessInTask(task: OffloadedTask) returns (m: map<int, bv32>)
    ensures m == AccessMap(task.body)
    ensures forall a :: a in m <==> Loads(task.body, a) || Stores(task.body, a)
  {
    var v := new ExternalPtrAccessVisitor(map[]);
    var i := 0;
    while i < |task.body|
      invariant 0 <= i <= |task.body|
      invariant v.accessMap == AccessMap(task.body[..i])
    {
      assert task.body[..i + 1][..i] == task.body[..i];
      match task.body[i] {
        case GlobalLoad(src) => v.VisitLoad(src);
        case GlobalStore(dest) => v.VisitStore(dest);
        case OtherStmt =>
      }
      i := i + 1;
    }
    assert task.body[..i] == task.body;
    m := v.accessMap;
    forall a ensures a in m <==> Loads(task.body, a) || Stores(task.body, a) {
      AccessMapSpec(task.body, a);
    }
  }
}
