/** dm_bufio_write_dirty_buffers of md/dm-bufio.c among other callers: while it waits, and
    between any two of its steps, every other call may run on the same client. */
module FlushProtocol {
  import opened Collections
  import opened Lru
  import opened BufferCache
  import opened Bufio
  import opened BufioFlush
  import opened BufioViews

  /* ---------- the iterator survives every call ---------- */

  /** Iterator i is on the ring and owes at least these entries. */
  ghost predicate Fine(l: List, i: ItId, owed: set<Id>) {
    NoDup(l.ring) && i in l.iters && IterOk(l.ring, l.iters[i], owed)
  }

  lemma FineLess(l: List, i: ItId, owed: set<Id>, less: set<Id>)
    requires Fine(l, i, owed) && less <= owed
    ensures Fine(l, i, less)
  {
    hide NoDup, InSpan;
  }

  lemma FineInsert(l: List, x: Id, i: ItId, owed: set<Id>)
    requires Fine(l, i, owed) && x !in l.ring
    ensures Fine(Lru.Insert(l, x), i, owed)
  {
    hide IterOk;
    InsertIter(l.ring, l.iters[i], owed, x);
  }

  lemma FineRemove(l: List, x: Id, i: ItId, owed: set<Id>)
    requires Fine(l, i, owed) && x in l.ring && x !in owed
    ensures Fine(Remove(l, x), i, owed)
  {
    hide IterOk, NoDup, Pos, Without, Invalidate;
    RemoveIter(l.ring, l.iters[i], owed, x);
    assert owed - {x} == owed;
  }

  lemma FineSettle(l: List, pred: Id -> Verdict, h: nat, i: ItId, owed: set<Id>)
    requires Fine(l, i, owed) && h < |l.ring| && (pred(l.ring[h]) == Evict ==> l.ring[h] !in owed)
    ensures Fine(Lru.Settle(l, pred, h).0, i, owed)
  {
    hide IterOk, NoDup, Rotate, Remove;
    var m := l.(ring := Rotate(l.ring, h + 1));
    RotateIter(l.ring, l.iters[i], owed, h + 1);
    RotateHas(l.ring, h + 1, l.ring[h]);
    assert Fine(m, i, owed);
    hide Fine;
    if pred(l.ring[h]) == Evict { FineRemove(m, l.ring[h], i, owed); }
  }

  lemma FineEvict(l: List, pred: Id -> Verdict, i: ItId, owed: set<Id>)
    requires Fine(l, i, owed) && (EvictSpec(l, pred).1.Some? ==> EvictSpec(l, pred).1.value !in owed)
    ensures Fine(EvictSpec(l, pred).0, i, owed)
  {
    hide IterOk, NoDup, CountRef, Rotate, Remove;
    var s := l.ring;
    var h := FirstHit(s, l.referenced, pred, 0);
    if h < |s| {
      FineSettle(l.(referenced := l.referenced - Elements(s[..h])), pred, h, i, owed);
    } else {
      var j := FirstHit(SecondLap(l), {}, pred, 0);
      if j < |SecondLap(l)| { FineSettle(l.(referenced := l.referenced - Elements(s)), pred, j, i, owed); }
    }
  }

  /* ---------- and so the dirty list's, every cache operation ---------- */

  lemma FineMark(c: Cache, id: Id, m: Mode, i: ItId, owed: set<Id>)
    requires Agree(c) && Fine(c.dirty, i, owed) && id in c.bufs && id in ListOf(c, c.bufs[id].mode).ring
    requires owed <= Elements(CacheMark(c, id, m).dirty.ring)
    ensures Fine(CacheMark(c, id, m).dirty, i, owed)
  {
    hide Agree, NoDup, Fine, Remove;
    AgreeParts(c);
    var b := c.bufs[id];
    if b.mode != m {
      RemoveTakesOut(ListOf(c, b.mode), id);
      if b.mode == Dirty {
        assert id !in CacheMark(c, id, m).dirty.ring;
        FineRemove(c.dirty, id, i, owed);
      } else {
        LookupIsPlainMap(c, b.block, id);
        FineInsert(c.dirty, id, i, owed);
      }
    }
  }

  lemma FineUnlink(c: Cache, id: Id, i: ItId, owed: set<Id>)
    requires Fine(c.dirty, i, owed) && id !in owed
    requires id in c.bufs && c.hash(c.bufs[id].block) < |c.trees| && id in ListOf(c, c.bufs[id].mode).ring
    ensures Fine(Unlink(c, id).dirty, i, owed)
  {
    hide Fine, Remove;
    if c.bufs[id].mode == Dirty { FineRemove(c.dirty, id, i, owed); }
  }

  lemma {:induction false} FineUnlinkAll(c: Cache, out: seq<Id>, i: ItId, owed: set<Id>)
    requires Fine(c.dirty, i, owed) && forall x :: x in out ==> x !in owed
    ensures Fine(UnlinkAll(c, out).dirty, i, owed)
    decreases |out|
  {
    hide Fine, Unlink;
    if out != [] {
      FineUnlinkAll(c, out[..|out| - 1], i, owed);
      var d, id := UnlinkAll(c, out[..|out| - 1]), out[|out| - 1];
      if id in d.bufs && d.hash(d.bufs[id].block) < |d.trees| && id in ListOf(d, d.bufs[id].mode).ring { FineUnlink(d, id, i, owed); }
    }
  }

  lemma {:induction false} FineMoveAll(c: Cache, pred: Id -> Verdict, i: ItId, owed: set<Id>)
    requires Agree(c) && Fine(c.dirty, i, owed) && owed <= Elements(MoveAll(c, Dirty, Clean, pred).dirty.ring)
    ensures Fine(MoveAll(c, Dirty, Clean, pred).dirty, i, owed)
    decreases |c.dirty.ring|
  {
    hide Agree, NoDup, Fine, EvictSpec, Moved;
    MoveAgrees(c, Dirty, Clean, pred);
    var (d, x) := MoveOne(c, Dirty, Clean, pred);
    AgreeParts(c);
    EvictTakesOut(c.dirty, Guarded(c.bufs, pred));
    if x.Some? {
      MovedNone(d, Dirty, Clean, pred);
      MoveAllMoves(d, d, Dirty, Clean, pred);
      MovedAway(d, MoveAll(d, Dirty, Clean, pred), pred, x.value);
      FineEvict(c.dirty, Guarded(c.bufs, pred), i, owed);
      FineMoveAll(d, pred, i, owed);
    } else {
      FineEvict(c.dirty, Guarded(c.bufs, pred), i, owed);
    }
  }

  lemma MovedAway(d: Cache, e: Cache, pred: Id -> Verdict, x: Id)
    requires Moved(d, e, Dirty, Clean, pred) && x !in d.dirty.ring
    ensures x !in e.dirty.ring
  {
    assert x in ListOf(e, Dirty).ring ==> x in ListOf(d, Dirty).ring;
  }

  /* ---------- and every call ---------- */

  lemma FineTakeOut(s: Client, m: Mode, pred: Id -> Verdict, io: Io, i: ItId, owed: set<Id>)
    requires Sane(s, {}) && Fine(s.c.dirty, i, owed)
    ensures HashInRange(s.c) && |s.marks| == |s.fate|
    ensures owed <= Elements(TakeOut(s, m, pred, io).0.c.dirty.ring) ==> Fine(TakeOut(s, m, pred, io).0.c.dirty, i, owed)
  {
    hide Sane, Agree, NoDup, Fine, EvictSpec, MakeClean, TreeErase;
    SaneParts(s, {});
    AgreeParts(s.c);
    EraseKeepsRings(s.c, m, pred);
    EvictTakesOut(ListOf(s.c, m), Guarded(s.c.bufs, pred));
    var (d, x) := CacheEvict(s.c, m, pred);
    if x.Some? {
      var u := s.(c := d, hand := s.hand + {x.value});
      assert MakeClean(u, x.value, io).c == d.(bufs := MakeClean(u, x.value, io).c.bufs);
    }
    assert TakeOut(s, m, pred, io).0.c.dirty == d.dirty;
    if m == Dirty && owed <= Elements(d.dirty.ring) { FineEvict(s.c.dirty, Guarded(s.c.bufs, pred), i, owed); }
  }

  lemma FineUnclaimed(s: Client, io: Io, i: ItId, owed: set<Id>)
    requires Sane(s, {}) && Fine(s.c.dirty, i, owed)
    ensures HashInRange(s.c) && |s.marks| == |s.fate|
    ensures owed <= Elements(GetUnclaimed(s, io).0.c.dirty.ring) ==> Fine(GetUnclaimed(s, io).0.c.dirty, i, owed)
  {
    hide Sane, Agree, Fine, TakeOut;
    FineTakeOut(s, Clean, IsClean(s.c.bufs, s.noSleep), io, i, owed);
    TakeOutLeaves(s, Clean, IsClean(s.c.bufs, s.noSleep), io);
    TakeOutKeeps(s, Clean, IsClean(s.c.bufs, s.noSleep), io);
    var (t, x) := TakeOut(s, Clean, IsClean(s.c.bufs, s.noSleep), io);
    assert t.c.dirty == s.c.dirty;
    if x.None? && !s.noSleep { FineTakeOut(t, Dirty, IsDirty(t.c.bufs), io, i, owed); }
  }

  lemma FineAsync(s: Client, noWait: bool, io: Io, i: ItId, owed: set<Id>)
    requires Sane(s, {}) && Fine(s.c.dirty, i, owed)
    ensures Agree(s.c) && |s.marks| == |s.fate|
    ensures owed <= Elements(WriteAsync(s, noWait, io).c.dirty.ring) ==> Fine(WriteAsync(s, noWait, io).c.dirty, i, owed)
  {
    hide Sane, Agree, Fine, MoveAll, WriteEach, Cleaned;
    SaneParts(s, {});
    var t := MoveClean(s);
    AgreeParts(t.c);
    assert WriteAsync(s, noWait, io).c.dirty == t.c.dirty;
    if owed <= Elements(t.c.dirty.ring) { FineMoveAll(s.c, Cleaned(s.c.bufs), i, owed); }
  }

  lemma FineEnter(s: Client, id: Id, block: Block, nf: Flag, io: Io, i: ItId, owed: set<Id>)
    requires Sane(s, {}) && Fine(s.c.dirty, i, owed) && id in s.c.bufs && !Listed(s.c, id)
    ensures Agree(s.c) && |s.marks| == |s.fate|
    ensures owed <= Elements(Enter(s, id, block, nf, io).0.c.dirty.ring) ==> Fine(Enter(s, id, block, nf, io).0.c.dirty, i, owed)
  {
    hide Sane, Agree, IterOk, NoDup, WriteAsync, TreeSet, Lookup, CacheGet, CacheInsert, Free;
    SaneParts(s, {});
    AgreeParts(s.c);
    GetAgrees(s.c, block);
    var (d, x) := CacheGet(s.c, block);
    if x.Some? {
      GetLists(s.c, block);
      LookupIsPlainMap(s.c, block, x.value);
      FreeLists(s.(c := d), id);
    } else {
      FineAsync(s, true, io, i, owed);
      var t := CheckWatermark(s, io);
      var u := WithBuffer(t, id, Prepared(t.c.bufs[id], block, nf));
      InsertLists(u.c, id);
    }
  }

  lemma GetLists(c: Cache, block: Block)
    requires c.hash(block) < |c.trees| && (Lookup(c, block).Some? ==> Lookup(c, block).value in c.bufs)
    ensures var d := CacheGet(c, block).0;
            && d.dirty.ring == c.dirty.ring && d.dirty.iters == c.dirty.iters && d.bufs.Keys == c.bufs.Keys
            && d.hash == c.hash && d.trees == c.trees && d.clean.ring == c.clean.ring && CacheGet(c, block).1 == Lookup(c, block)
            && forall id :: id in c.bufs ==> d.bufs[id] == if Lookup(c, block) == Some(id) then c.bufs[id].(hold := c.bufs[id].hold + 1) else c.bufs[id]
  {
    hide Lookup;
  }

  lemma InsertLists(c: Cache, id: Id)
    requires id in c.bufs && c.hash(c.bufs[id].block) < |c.trees| && c.bufs[id].mode == Clean
    ensures CacheInsert(c, id).0.dirty == c.dirty
  {
    hide Lookup;
  }

  lemma FineRemoveOrPut(s: Client, id: Id, unwanted: bool, i: ItId, owed: set<Id>)
    requires Agree(s.c) && Fine(s.c.dirty, i, owed) && id in s.c.bufs && s.c.bufs[id].hold > 0
    requires s.c.hash(s.c.bufs[id].block) < |s.c.trees| && id in ListOf(s.c, s.c.bufs[id].mode).ring
    ensures owed <= Elements(RemoveOrPut(s, id, unwanted).c.dirty.ring) ==> Fine(RemoveOrPut(s, id, unwanted).c.dirty, i, owed)
  {
    hide Agree, NoDup, Fine, Unlink;
    AgreeParts(s.c);
    UnlinkAgrees(s.c, id);
    if unwanted && s.c.bufs[id].hold == 1 {
      var t := Removed(s, id);
      UnlinkBufs(s.c, id);
      FreeLists(t, id);
      assert id !in t.c.dirty.ring;
      if owed <= Elements(t.c.dirty.ring) { FineUnlink(s.c, id, i, owed); }
    }
  }

  lemma FineNew(s: Client, e: Bufio.Event, i: ItId, owed: set<Id>)
    requires Sane(s, {}) && Allowed(s, e) && (e.Fast? || e.Alloc? || e.Use?) && Fine(s.c.dirty, i, owed)
    ensures owed <= Elements(NewStep(s, e).c.dirty.ring) ==> Fine(NewStep(s, e).c.dirty, i, owed)
  {
    hide Sane, Agree, IterOk, NoDup, Lookup, GetUnclaimed, Enter, CacheGet;
    SaneParts(s, {});
    AgreeParts(s.c);
    match e
    case Fast(block, nf) =>
      GetAgrees(s.c, block);
      FastPathKeeps(s, block, nf);
      GetLists(s.c, block);
    case Alloc(_, _, io) => FineUnclaimed(s, io, i, owed);
    case Use(id, block, nf, io) =>
      HandIn(s, id);
      EnterKeeps(s, id, block, nf, io);
      FineEnter(s, id, block, nf, io, i, owed);
  }

  lemma {:induction false} FreeAllLists(s: Client, out: seq<Id>)
    ensures FreeAll(s, out).c.dirty == s.c.dirty
    decreases |out|
  {
    hide Free;
    if out != [] && out[0] in s.c.bufs {
      FreeLists(s, out[0]);
      FreeAllLists(Free(s, out[0]), out[1..]);
    }
  }

  lemma FineForget(s: Client, block: Block, i: ItId, owed: set<Id>)
    requires Sane(s, {}) && Fine(s.c.dirty, i, owed)
    ensures Agree(s.c) && FineForgetReady(s.c, block)
    ensures owed <= Elements(ForgetBlock(s, block).c.dirty.ring) ==> Fine(ForgetBlock(s, block).c.dirty, i, owed)
  {
    hide Sane, Agree, IterOk, NoDup, Lookup, RemoveOrPut, CacheGet;
    SaneParts(s, {});
    AgreeParts(s.c);
    GetAgrees(s.c, block);
    ForgetKeeps(s, block);
    GetLists(s.c, block);
    GetKeeps(s, block);
    var (d, x) := CacheGet(s.c, block);
    if x.Some? {
      LookupIsPlainMap(s.c, block, x.value);
      FineRemoveOrPut(s.(c := d), x.value, Quiet(d.bufs[x.value]), i, owed);
    }
  }

  /** The block can be looked up and forgotten. */
  ghost predicate FineForgetReady(c: Cache, block: Block) {
    && c.hash(block) < |c.trees|
    && (Lookup(c, block).Some? ==>
          var id := Lookup(c, block).value;
          id in c.bufs && c.bufs[id].block == block && id in ListOf(c, c.bufs[id].mode).ring)
  }

  lemma FineFree(s: Client, e: Bufio.Event, i: ItId, owed: set<Id>)
    requires Sane(s, {}) && Allowed(s, e) && (e.Release? || e.Forget? || e.ForgetRange? || e.Reclaim?) && Fine(s.c.dirty, i, owed)
    ensures owed <= Elements(FreeStep(s, e).c.dirty.ring) ==> Fine(FreeStep(s, e).c.dirty, i, owed)
  {
    hide Sane, Agree, Fine, NoDup, Lookup, RemoveOrPut, ForgetBlock, TakeOut, FreeAll, UnlinkAll, InRange;
    SaneParts(s, {});
    AgreeParts(s.c);
    match e
    case Release(id) =>
      ReleaseKeeps(s, id);
      FineRemoveOrPut(s, id, (s.c.bufs[id].readError || s.c.bufs[id].writeError) && Quiet(s.c.bufs[id]), i, owed);
    case Forget(block) =>
      ForgetKeeps(s, block);
      FineForget(s, block, i, owed);
    case ForgetRange(_, _, d, out) =>
      FreeAllLists(s.(c := d, hand := s.hand + Elements(out)), out);
      if owed <= Elements(d.dirty.ring) { FineUnlinkAll(s.c, out, i, owed); }
    case Reclaim(m, pred, io) =>
      FineTakeOut(s, m, pred, io, i, owed);
      var (t, x) := TakeOut(s, m, pred, io);
      if x.Some? { FreeLists(t, x.value); }
  }

  lemma FineWrite(s: Client, e: Bufio.Event, i: ItId, owed: set<Id>)
    requires Sane(s, {}) && Allowed(s, e) && (e.MarkPartial? || e.Flush? || e.Watermark? || e.Settle?) && Fine(s.c.dirty, i, owed)
    ensures owed <= Elements(WriteStep(s, e).c.dirty.ring) ==> Fine(WriteStep(s, e).c.dirty, i, owed)
  {
    hide Sane, Agree, Fine, NoDup, WriteAsync, CacheMark;
    SaneParts(s, {});
    AgreeParts(s.c);
    match e
    case MarkPartial(id, start, end) =>
      MarkDirtyKeeps(s, id, start, end);
      var b := s.c.bufs[id];
      if !b.dirty {
        var d := s.c.(bufs := s.c.bufs[id := b.(dirty := true, dirtyStart := start, dirtyEnd := end)]);
        FieldsAgree(s.c, d, id);
        if owed <= Elements(CacheMark(d, id, Dirty).dirty.ring) { FineMark(d, id, Dirty, i, owed); }
      }
    case Flush(noWait, io) => FineAsync(s, noWait, io, i, owed);
    case Watermark(io) => FineAsync(s, true, io, i, owed);
    case Settle(id) =>
      SettledKeeps(s, id);
      MarkHolds(s.c, id, Clean);
      if owed <= Elements(CacheMark(s.c, id, Clean).dirty.ring) { FineMark(s.c, id, Clean, i, owed); }
  }

  /** Whatever call comes, the iterator is still on the ring and owes what it owed, but for what
      has left the dirty list. */
  lemma FineStep(s: Client, e: Bufio.Event, i: ItId, owed: set<Id>)
    requires Sane(s, {}) && Allowed(s, e) && Fine(s.c.dirty, i, owed)
    ensures Fine(Bufio.Step(s, e).c.dirty, i, owed * Elements(Bufio.Step(s, e).c.dirty.ring))
  {
    hide Sane, Allowed, Fine, NewStep, FreeStep, WriteStep;
    var left := owed * Elements(Bufio.Step(s, e).c.dirty.ring);
    FineLess(s.c.dirty, i, owed, left);
    match e
    case Fast(_, _) | Alloc(_, _, _) | Use(_, _, _, _) => FineNew(s, e, i, left);
    case Release(_) | Forget(_) | ForgetRange(_, _, _, _) | Reclaim(_, _, _) => FineFree(s, e, i, left);
    case MarkPartial(_, _, _) | Flush(_, _) | Watermark(_) | Settle(_) => FineWrite(s, e, i, left);
    case _ => assert Bufio.Step(s, e).c.dirty == s.c.dirty by { BitsOnly(s, e); }
  }

  lemma BitsOnly(s: Client, e: Bufio.Event)
    requires Sane(s, {}) && Allowed(s, e) && (e.ReadDone? || e.WriteDone? || e.Hold?)
    ensures Bufio.Step(s, e).c.dirty == s.c.dirty
  {
    hide Sane;
  }

  /* ---------- a write that is over stays over ---------- */

  /** Buffers written by the submissions from n on. */
  ghost function Launched(t: Client, n: nat): (ids: set<Id>) { set j | n <= j < |t.submitted| :: t.submitted[j].id }

  /** A buffer is being written in t only if it was in s or a new submission writes it. */
  ghost predicate Launches(s: Client, t: Client) {
    && s.submitted <= t.submitted
    && forall id :: id in t.c.bufs && t.c.bufs[id].writing ==> (id in s.c.bufs && s.c.bufs[id].writing) || id in Launched(t, |s.submitted|)
  }

  lemma LaunchesOn(s: Client, t: Client, u: Client)
    requires Launches(s, t) && Launches(t, u)
    ensures Launches(s, u)
  {
    forall id | id in Launched(t, |s.submitted|)
      ensures id in Launched(u, |s.submitted|)
    {
      var j :| |s.submitted| <= j < |t.submitted| && t.submitted[j].id == id;
      assert u.submitted[j] == t.submitted[j];
    }
    forall id | id in Launched(u, |t.submitted|)
      ensures id in Launched(u, |s.submitted|)
    {
      var j :| |t.submitted| <= j < |u.submitted| && u.submitted[j].id == id;
    }
  }

  /** No write is started. */
  lemma LaunchesNone(s: Client, t: Client)
    requires t.submitted == s.submitted
    requires forall id :: id in t.c.bufs && t.c.bufs[id].writing ==> id in s.c.bufs && s.c.bufs[id].writing
    ensures Launches(s, t)
  {}

  lemma LaunchesWrite(s: Client, id: Id, status: bool)
    requires id in s.c.bufs && |s.marks| == |s.fate|
    ensures Launches(s, WriteDirty(s, id, status))
  {
    var t := WriteDirty(s, id, status);
    if s.c.bufs[id].dirty { assert t.submitted[|s.submitted|].id == id; }
  }

  lemma {:induction false} LaunchesEach(s: Client, ids: seq<Id>, noWait: bool, io: Io)
    requires |s.marks| == |s.fate| && forall i :: 0 <= i < |ids| ==> ids[i] in s.c.bufs
    ensures Launches(s, WriteEach(s, ids, noWait, io))
    decreases |ids|
  {
    hide WriteDirty, Launches;
    LaunchesNone(s, s);
    if ids != [] && !(noWait && s.c.bufs[ids[0]].writing) {
      var t := WriteDirty(s, ids[0], io.earlier(ids[0]));
      LaunchesWrite(s, ids[0], io.earlier(ids[0]));
      LaunchesEach(t, ids[1..], noWait, io);
      LaunchesOn(s, t, WriteEach(t, ids[1..], noWait, io));
    }
  }

  lemma LaunchesEnd(s: Client, id: Id, status: bool)
    requires id in s.c.bufs
    ensures Launches(s, ReadEnd(s, id, status)) && Launches(s, WriteEnd(s, id, status))
  {
    hide Launches;
    LaunchesNone(s, ReadEnd(s, id, status));
    LaunchesNone(s, WriteEnd(s, id, status));
  }

  lemma LaunchesClean(s: Client, id: Id, io: Io)
    requires id in s.c.bufs && |s.marks| == |s.fate|
    ensures Launches(s, MakeClean(s, id, io))
  {
    LaunchesNone(s, s);
    if !Quiet(s.c.bufs[id]) {
      var s1 := if s.c.bufs[id].reading then ReadEnd(s, id, io.read) else s;
      hide WriteDirty, Launches;
      LaunchesEnd(s, id, io.read);
      LaunchesWrite(s1, id, io.earlier(id));
      var s2 := WriteDirty(s1, id, io.earlier(id));
      LaunchesOn(s, s1, s2);
      LaunchesEnd(s2, id, io.last);
      LaunchesOn(s, s2, WriteEnd(s2, id, io.last));
    }
  }

  lemma LaunchesTakeOut(s: Client, m: Mode, pred: Id -> Verdict, io: Io)
    requires HashInRange(s.c) && |s.marks| == |s.fate|
    ensures Launches(s, TakeOut(s, m, pred, io).0)
  {
    hide CacheEvict, MakeClean, Launches;
    var (d, x) := CacheEvict(s.c, m, pred);
    LaunchesNone(s, s.(c := d));
    if x.Some? {
      var u := s.(c := d, hand := s.hand + {x.value});
      LaunchesNone(s, u);
      LaunchesClean(u, x.value, io);
      LaunchesOn(s, u, MakeClean(u, x.value, io));
    }
  }

  lemma LaunchesUnclaimed(s: Client, io: Io)
    requires Sane(s, {})
    ensures HashInRange(s.c) && |s.marks| == |s.fate| && Launches(s, GetUnclaimed(s, io).0)
  {
    hide Sane, TakeOut, Launches;
    SaneParts(s, {});
    LaunchesTakeOut(s, Clean, IsClean(s.c.bufs, s.noSleep), io);
    var t := TakeOut(s, Clean, IsClean(s.c.bufs, s.noSleep), io).0;
    LaunchesTakeOut(t, Dirty, IsDirty(t.c.bufs), io);
    LaunchesOn(s, t, TakeOut(t, Dirty, IsDirty(t.c.bufs), io).0);
  }

  lemma LaunchesAsync(s: Client, noWait: bool, io: Io)
    requires Sane(s, {})
    ensures Agree(s.c) && |s.marks| == |s.fate| && Launches(s, WriteAsync(s, noWait, io))
  {
    hide Sane, Agree, MoveAll, WriteEach, Launches, Moved, Cleaned;
    SaneParts(s, {});
    var t := MoveClean(s);
    AgreeParts(t.c);
    MovedNone(s.c, Dirty, Clean, Cleaned(s.c.bufs));
    MoveAllMoves(s.c, s.c, Dirty, Clean, Cleaned(s.c.bufs));
    forall id | id in t.c.bufs
      ensures id in s.c.bufs && t.c.bufs[id].writing == s.c.bufs[id].writing
    {
      MovedListed(s.c, t.c, id);
    }
    LaunchesNone(s, t);
    LaunchesEach(t, t.c.dirty.ring, noWait, io);
    LaunchesOn(s, t, WriteAsync(s, noWait, io));
  }

  lemma LaunchesFree(s: Client, id: Id)
    requires id in s.c.bufs
    ensures Launches(s, Free(s, id))
  {
    LaunchesNone(s, Free(s, id));
  }

  lemma {:induction false} LaunchesFreeAll(s: Client, out: seq<Id>)
    ensures Launches(s, FreeAll(s, out))
    decreases |out|
  {
    hide Free, Launches;
    LaunchesNone(s, s);
    if out != [] && out[0] in s.c.bufs {
      LaunchesFree(s, out[0]);
      LaunchesFreeAll(Free(s, out[0]), out[1..]);
      LaunchesOn(s, Free(s, out[0]), FreeAll(s, out));
    }
  }

  /** A lookup starts no write, whatever becomes of the hold it took. */
  lemma LaunchesFound(s: Client, block: Block, nf: Flag)
    requires s.c.hash(block) < |s.c.trees| && (Lookup(s.c, block).Some? ==> Lookup(s.c, block).value in s.c.bufs)
    ensures var (d, x) := CacheGet(s.c, block);
            Launches(s, s.(c := d)) && (x.Some? ==> Launches(s, Found(s.(c := d), x.value, nf).0))
  {
    hide Launches, Lookup, CacheGet;
    GetLists(s.c, block);
    var (d, x) := CacheGet(s.c, block);
    LaunchesNone(s, s.(c := d));
    if x.Some? { LaunchesNone(s, Found(s.(c := d), x.value, nf).0); }
  }

  lemma LaunchesHit(s: Client, id: Id, x: Id, nf: Flag)
    requires id in s.c.bufs && x in s.c.bufs && x != id && s.c.bufs[x].hold > 0
    ensures x in Free(s, id).c.bufs && Free(s, id).c.bufs[x].hold > 0 && Launches(s, Found(Free(s, id), x, nf).0)
  {
    hide Launches, Free;
    LaunchesFree(s, id);
    FreeLeaves(s, id, x);
    LaunchesNone(Free(s, id), Found(Free(s, id), x, nf).0);
    LaunchesOn(s, Free(s, id), Found(Free(s, id), x, nf).0);
  }

  lemma LaunchesMiss(s: Client, t: Client, id: Id, block: Block, nf: Flag)
    requires Launches(s, t) && id in t.c.bufs && t.c.hash(block) < |t.c.trees|
    ensures var u := WithBuffer(t, id, Prepared(t.c.bufs[id], block, nf));
            Launches(s, u.(c := CacheInsert(u.c, id).0, hand := u.hand - {id}))
  {
    hide Launches, CacheInsert;
    var u := WithBuffer(t, id, Prepared(t.c.bufs[id], block, nf));
    InsertBufs(u.c, id);
    LaunchesNone(t, u.(c := CacheInsert(u.c, id).0, hand := u.hand - {id}));
    LaunchesOn(s, t, u.(c := CacheInsert(u.c, id).0, hand := u.hand - {id}));
  }

  lemma LaunchesEnter(s: Client, id: Id, block: Block, nf: Flag, io: Io)
    requires Sane(s, {}) && id in s.c.bufs && !Listed(s.c, id)
    ensures Agree(s.c) && |s.marks| == |s.fate| && Launches(s, Enter(s, id, block, nf, io).0)
  {
    hide Sane, Agree, WriteAsync, Lookup, CacheGet, CacheInsert, Free, Launches, Found, Prepared;
    SaneParts(s, {});
    AgreeParts(s.c);
    GetAgrees(s.c, block);
    GetLists(s.c, block);
    var (d, x) := CacheGet(s.c, block);
    if x.Some? {
      LookupIsPlainMap(s.c, block, x.value);
      LaunchesFound(s, block, nf);
      LaunchesHit(s.(c := d), id, x.value, nf);
      LaunchesOn(s, s.(c := d), Enter(s, id, block, nf, io).0);
    } else {
      LaunchesAsync(s, true, io);
      LaunchesNone(s, s);
      LaunchesMiss(s, CheckWatermark(s, io), id, block, nf);
    }
  }

  lemma InsertBufs(c: Cache, id: Id)
    requires id in c.bufs && c.hash(c.bufs[id].block) < |c.trees|
    ensures CacheInsert(c, id).0.bufs == c.bufs
  {}

  lemma LaunchesRemoveOrPut(s: Client, id: Id, unwanted: bool)
    requires id in s.c.bufs && s.c.bufs[id].hold > 0
    requires s.c.hash(s.c.bufs[id].block) < |s.c.trees| && id in ListOf(s.c, s.c.bufs[id].mode).ring
    ensures Launches(s, RemoveOrPut(s, id, unwanted))
  {
    hide Unlink, Free, Launches;
    UnlinkBufs(s.c, id);
    LaunchesNone(s, PutHold(s, id));
    var t := Removed(s, id);
    LaunchesNone(s, t);
    LaunchesFree(t, id);
    LaunchesOn(s, t, Free(t, id));
  }

  lemma MarkBufs(c: Cache, id: Id, m: Mode)
    requires id in c.bufs && id in ListOf(c, c.bufs[id].mode).ring
    ensures CacheMark(c, id, m).bufs == c.bufs[id := c.bufs[id].(mode := m)]
  {}

  lemma MarkedBufs(s: Client, id: Id, start: nat, end: nat)
    requires id in s.c.bufs && id in ListOf(s.c, s.c.bufs[id].mode).ring
    ensures MarkDirty(s, id, start, end).submitted == s.submitted && MarkDirty(s, id, start, end).c.bufs.Keys == s.c.bufs.Keys
    ensures forall x :: x in s.c.bufs ==> MarkDirty(s, id, start, end).c.bufs[x].writing == s.c.bufs[x].writing
  {
    hide CacheMark;
    MarkBufs(s.c.(bufs := s.c.bufs[id := s.c.bufs[id].(dirty := true, dirtyStart := start, dirtyEnd := end)]), id, Dirty);
  }

  lemma SettledBufs(s: Client, id: Id)
    requires id in s.c.bufs && s.c.bufs[id].hold > 0 && id in ListOf(s.c, s.c.bufs[id].mode).ring
    ensures Settled(s, id).submitted == s.submitted && Settled(s, id).c.bufs.Keys == s.c.bufs.Keys
    ensures forall x :: x in s.c.bufs ==> Settled(s, id).c.bufs[x].writing == s.c.bufs[x].writing
  {
    hide CacheMark;
    MarkBufs(s.c, id, Clean);
  }

  lemma LaunchesNew(s: Client, e: Bufio.Event)
    requires Sane(s, {}) && Allowed(s, e) && (e.Fast? || e.Alloc? || e.Use?)
    ensures Launches(s, NewStep(s, e))
  {
    hide Sane, Agree, Lookup, GetUnclaimed, Enter, CacheGet, Launches, Found;
    SaneParts(s, {});
    AgreeParts(s.c);
    LaunchesNone(s, s);
    match e
    case Fast(block, nf) =>
      GetAgrees(s.c, block);
      FastPathKeeps(s, block, nf);
      LaunchesFound(s, block, nf);
    case Alloc(given, nf, io) =>
      LaunchesUnclaimed(s, io);
      if given.Some? || nf == Prefetch || s.reserved != [] { LaunchesNone(s, NewStep(s, e)); }
    case Use(id, block, nf, io) =>
      HandIn(s, id);
      EnterKeeps(s, id, block, nf, io);
      LaunchesEnter(s, id, block, nf, io);
  }

  lemma LaunchesForget(s: Client, block: Block)
    requires Sane(s, {})
    ensures FineForgetReady(s.c, block) && Launches(s, ForgetBlock(s, block))
  {
    hide Sane, Agree, Lookup, RemoveOrPut, CacheGet, Launches;
    SaneParts(s, {});
    AgreeParts(s.c);
    GetAgrees(s.c, block);
    ForgetKeeps(s, block);
    GetLists(s.c, block);
    LaunchesNone(s, s);
    var (d, x) := CacheGet(s.c, block);
    if x.Some? {
      LookupIsPlainMap(s.c, block, x.value);
      var t := s.(c := d);
      LaunchesNone(s, t);
      LaunchesRemoveOrPut(t, x.value, Quiet(d.bufs[x.value]));
      LaunchesOn(s, t, ForgetBlock(s, block));
    }
  }

  lemma LaunchesGiveBack(s: Client, e: Bufio.Event)
    requires Sane(s, {}) && Allowed(s, e) && (e.Release? || e.Forget? || e.ForgetRange? || e.Reclaim?)
    ensures Launches(s, FreeStep(s, e))
  {
    hide Sane, Agree, Lookup, RemoveOrPut, ForgetBlock, TakeOut, FreeAll, UnlinkAll, InRange, Launches, Free, NoDup;
    SaneParts(s, {});
    AgreeParts(s.c);
    match e
    case Release(id) =>
      ReleaseKeeps(s, id);
      LaunchesRemoveOrPut(s, id, (s.c.bufs[id].readError || s.c.bufs[id].writeError) && Quiet(s.c.bufs[id]));
    case Forget(block) =>
      ForgetKeeps(s, block);
      LaunchesForget(s, block);
    case ForgetRange(_, _, d, out) =>
      var t := s.(c := d, hand := s.hand + Elements(out));
      LaunchesNone(s, t);
      LaunchesFreeAll(t, out);
      LaunchesOn(s, t, FreeAll(t, out));
    case Reclaim(m, pred, io) =>
      LaunchesTakeOut(s, m, pred, io);
      var (t, x) := TakeOut(s, m, pred, io);
      if x.Some? {
        LaunchesFree(t, x.value);
        LaunchesOn(s, t, Free(t, x.value));
      }
  }

  lemma LaunchesMark(s: Client, e: Bufio.Event)
    requires Sane(s, {}) && Allowed(s, e) && (e.MarkPartial? || e.Flush? || e.Watermark? || e.Settle?)
    ensures Launches(s, WriteStep(s, e))
  {
    hide Sane, Agree, WriteAsync, MarkDirty, Settled, Launches;
    SaneParts(s, {});
    AgreeParts(s.c);
    LaunchesNone(s, s);
    match e
    case MarkPartial(id, start, end) =>
      MarkDirtyKeeps(s, id, start, end);
      MarkedBufs(s, id, start, end);
      LaunchesNone(s, MarkDirty(s, id, start, end));
    case Flush(noWait, io) => LaunchesAsync(s, noWait, io);
    case Watermark(io) => LaunchesAsync(s, true, io);
    case Settle(id) =>
      SettledKeeps(s, id);
      SettledBufs(s, id);
      LaunchesNone(s, Settled(s, id));
  }

  lemma LaunchesStep(s: Client, e: Bufio.Event)
    requires Sane(s, {}) && Allowed(s, e)
    ensures Launches(s, Bufio.Step(s, e))
  {
    hide Sane, Allowed, NewStep, FreeStep, WriteStep, Launches;
    match e
    case Fast(_, _) | Alloc(_, _, _) | Use(_, _, _, _) => LaunchesNew(s, e);
    case Release(_) | Forget(_) | ForgetRange(_, _, _, _) | Reclaim(_, _, _) => LaunchesGiveBack(s, e);
    case MarkPartial(_, _, _) | Flush(_, _) | Watermark(_) | Settle(_) => LaunchesMark(s, e);
    case _ => LaunchesBits(s, e);
  }

  lemma LaunchesBits(s: Client, e: Bufio.Event)
    requires Sane(s, {}) && Allowed(s, e) && (e.ReadDone? || e.WriteDone? || e.Hold?)
    ensures Launches(s, Bufio.Step(s, e))
  {
    hide Sane, Launches;
    LaunchesNone(s, Bufio.Step(s, e));
  }

  /** Write j has not completed: its buffer is being written, and by no later write. */
  ghost predicate InFlight(s: Client, j: nat) {
    j < |s.submitted| && var id := s.submitted[j].id; id in s.c.bufs && s.c.bufs[id].writing && id !in Launched(s, j + 1)
  }

  /** What is in flight of the first n writes is on these buffers. */
  ghost predicate Owing(s: Client, n: nat, ids: set<Id>) {
    n <= |s.submitted| && forall j :: 0 <= j < n && InFlight(s, j) ==> s.submitted[j].id in ids
  }

  lemma LaunchedGrows(s: Client, t: Client, n: nat)
    requires s.submitted <= t.submitted
    ensures Launched(s, n) <= Launched(t, n)
  {
    forall j | n <= j < |s.submitted|
      ensures s.submitted[j].id in Launched(t, n)
    {
      assert t.submitted[j].id == s.submitted[j].id;
    }
  }

  /** A write that is over stays over. */
  lemma OverStaysOver(s: Client, t: Client, j: nat)
    requires Launches(s, t) && j < |s.submitted| && InFlight(t, j)
    ensures InFlight(s, j)
  {
    LaunchedGrows(s, t, j + 1);
  }

  lemma OwingStep(s: Client, t: Client, n: nat, owed: set<Id>, now: set<Id>)
    requires Owing(s, n, owed + now) && Launches(s, t) && Sane(t, {})
    ensures Owing(t, n, owed * Elements(t.c.dirty.ring) + now)
  {
    hide Sane, Launched;
    forall j | 0 <= j < n && InFlight(t, j)
      ensures t.submitted[j].id in owed * Elements(t.c.dirty.ring) + now
    {
      OverStaysOver(s, t, j);
      OnDirtyList(t, t.submitted[j].id);
    }
  }

  /** Buffers are the same, but for their holders. */
  lemma OwingSame(s: Client, t: Client, n: nat, ids: set<Id>)
    requires Owing(s, n, ids) && t.submitted == s.submitted && t.c.bufs.Keys == s.c.bufs.Keys
    requires forall id :: id in s.c.bufs ==> t.c.bufs[id].writing == s.c.bufs[id].writing
    ensures Owing(t, n, ids)
  {
    forall j | 0 <= j < n && InFlight(t, j)
      ensures InFlight(s, j)
    {
      assert Launched(t, j + 1) == Launched(s, j + 1);
    }
  }

  lemma OwingLess(s: Client, n: nat, ids: set<Id>, id: Id)
    requires Owing(s, n, ids) && !IsWriting(s.c.bufs)(id)
    ensures Owing(s, n, ids - {id})
  {}

  /* ---------- the routine among other callers ---------- */

  /** Where dm_bufio_write_dirty_buffers is: about to take the lock again, at the head of its
      loop, waiting for a buffer, woken and about to take the lock, or finished. */
  datatype Phase = Started | Scanning | Waiting(id: Id) | Woken(id: Id) | Finished

  datatype Flusher = Flusher(s: Client, phase: Phase)

  /** Other is a call of somebody else or a completion, Foreign a step of somebody else's
      iterator, and the rest are the routine's own steps. */
  datatype Turn = Other(e: Bufio.Event) | Foreign(iters: map<ItId, Iter>) | Scan | Next | Wake | LetGo

  /** Somebody else does not give back the hold the routine took. Waiting ends when the buffer
      is seen not being written. */
  ghost predicate Legal(f: Flusher, i: ItId, t: Turn) {
    var l := f.s.c.dirty;
    match t
    case Other(e) =>
      Allowed(f.s, e) && (f.phase.Waiting? || f.phase.Woken? ==> Taken(f.s, f.phase.id) && f.s.c.bufs[f.phase.id].hold + Change(f.s, e, f.phase.id) > 0)
    case Foreign(iters) => (i in iters <==> i in l.iters) && (i in iters ==> iters[i] == l.iters[i])
    case Scan => f.phase.Started?
    case Next => f.phase.Scanning? && i in l.iters && (l.iters[i].e.Some? ==> l.iters[i].e.value in l.ring)
    case Wake => f.phase.Waiting? && !IsWriting(f.s.c.bufs)(f.phase.id)
    case LetGo => f.phase.Woken? && Taken(f.s, f.phase.id)
  }

  ghost predicate Taken(s: Client, id: Id) { Listed(s.c, id) && id in s.c.bufs && s.c.bufs[id].hold > 0 }

  ghost function WithIters(s: Client, iters: map<ItId, Iter>): (t: Client) { s.(c := s.c.(dirty := s.c.dirty.(iters := iters))) }

  ghost function Taking(s: Client, id: Id): (t: Client)
    requires id in s.c.bufs
  {
    WithBuffer(s, id, s.c.bufs[id].(hold := s.c.bufs[id].hold + 1))
  }

  /** The head of the loop: test the next entry, and take it if it is being written; or end. */
  ghost function Test(s: Client, i: ItId): (r: Flusher)
    requires i in s.c.dirty.iters && (s.c.dirty.iters[i].e.Some? ==> s.c.dirty.iters[i].e.value in s.c.dirty.ring)
  {
    var l := s.c.dirty;
    if l.iters[i].e.None? then Flusher(WithIters(s, l.iters - {i}), Finished)
    else
      var id, t := l.iters[i].e.value, WithIters(s, l.iters[i := Advance(l.ring, l.iters[i])]);
      if IsWriting(s.c.bufs)(id) then Flusher(Taking(t, id), Waiting(id)) else Flusher(t, Scanning)
  }

  ghost function Step(f: Flusher, i: ItId, t: Turn): (r: Flusher)
    requires Sane(f.s, {}) && Legal(f, i, t)
  {
    match t
    case Other(e) => f.(s := Bufio.Step(f.s, e))
    case Foreign(iters) => f.(s := WithIters(f.s, iters))
    case Scan => Flusher(f.s.(c := f.s.c.(dirty := Begin(f.s.c.dirty, i))), Scanning)
    case Next => Test(f.s, i)
    case Wake => f.(phase := Woken(f.phase.id))
    case LetGo => Flusher(Bufio.Step(f.s, Bufio.Settle(f.phase.id)), Scanning)
  }

  lemma SaneTest(s: Client, i: ItId)
    requires Sane(s, {}) && i in s.c.dirty.iters && (s.c.dirty.iters[i].e.Some? ==> s.c.dirty.iters[i].e.value in s.c.dirty.ring)
    ensures Sane(Test(s, i).s, {})
  {
    hide Sane, Advance;
    var l := s.c.dirty;
    IteratorsApart(s, WithIters(s, l.iters - {i}));
    if l.iters[i].e.Some? {
      var id, t := l.iters[i].e.value, WithIters(s, l.iters[i := Advance(l.ring, l.iters[i])]);
      IteratorsApart(s, t);
      if id in t.c.bufs { HoldKeeps(t, id, t.c.bufs[id].hold + 1); }
    }
  }

  lemma SaneTurn(f: Flusher, i: ItId, t: Turn)
    requires Sane(f.s, {}) && Legal(f, i, t)
    ensures Sane(Step(f, i, t).s, {})
  {
    hide Sane, Allowed, Bufio.Step, Test;
    match t
    case Other(e) => SaneStep(f.s, e);
    case Foreign(iters) => IteratorsApart(f.s, WithIters(f.s, iters));
    case Scan => IteratorsApart(f.s, Step(f, i, t).s);
    case Next => SaneTest(f.s, i);
    case Wake =>
    case LetGo =>
      CanSettle(f.s, f.phase.id);
      SaneStep(f.s, Bufio.Settle(f.phase.id));
  }

  lemma CanSettle(s: Client, id: Id)
    requires Taken(s, id)
    ensures Allowed(s, Bufio.Settle(id))
  {}

  /** Everything dirty has been submitted, and the lock given up. */
  ghost function Entered(s: Client, io: Io): (r: Flusher)
    requires Sane(s, {})
    ensures Sane(r.s, {})
  {
    WriteAsyncKeeps(s, false, io);
    Flusher(WriteAsync(s, false, io), Started)
  }

  ghost predicate Reaches(f: Flusher, i: ItId, ts: seq<Turn>, r: Flusher)
    requires Sane(f.s, {})
    decreases |ts|, 1
  {
    if ts == [] then r == f else Goes(f, i, ts, r)
  }

  /** The first turn can be taken, and the others go on from it. */
  ghost predicate Goes(f: Flusher, i: ItId, ts: seq<Turn>, r: Flusher)
    requires Sane(f.s, {}) && ts != []
    decreases |ts|, 0
  {
    Legal(f, i, ts[0]) && (SaneTurn(f, i, ts[0]); Reaches(Step(f, i, ts[0]), i, ts[1..], r))
  }

  /** Of the first n writes, those in flight are ahead of the iterator, or waited for. */
  ghost predicate Tracks(f: Flusher, i: ItId, n: nat, owed: set<Id>) {
    && Sane(f.s, {}) && n <= |f.s.submitted|
    && match f.phase
       case Started => true
       case Scanning => Fine(f.s.c.dirty, i, owed) && Owing(f.s, n, owed)
       case Waiting(id) => Fine(f.s.c.dirty, i, owed) && Owing(f.s, n, owed + {id}) && Taken(f.s, id)
       case Woken(id) => Fine(f.s.c.dirty, i, owed) && Owing(f.s, n, owed) && Taken(f.s, id)
       case Finished => Owing(f.s, n, {})
  }

  /** Somebody else's call. */
  lemma TracksOther(f: Flusher, i: ItId, n: nat, owed: set<Id>, e: Bufio.Event) returns (left: set<Id>)
    requires Tracks(f, i, n, owed) && Legal(f, i, Other(e))
    ensures Tracks(Step(f, i, Other(e)), i, n, left)
  {
    hide Sane, Allowed, Bufio.Step, Fine, Launches, Change, Owing, Listed;
    var s, t := f.s, Bufio.Step(f.s, e);
    left := owed * Elements(t.c.dirty.ring);
    SaneStep(s, e);
    StepGrows(s, e);
    LaunchesStep(s, e);
    if f.phase.Finished? {
      var none: set<Id> := {};
      assert none + none == none && none * Elements(t.c.dirty.ring) + none == none;
      OwingStep(s, t, n, none, none);
    } else if !f.phase.Started? {
      FineStep(s, e, i, owed);
      assert owed + {} == owed && left + {} == left;
      OwingStep(s, t, n, owed, if f.phase.Waiting? then {f.phase.id} else {});
      if !f.phase.Scanning? { HeldStays(s, e, f.phase.id); }
    }
  }

  lemma TracksForeign(f: Flusher, i: ItId, n: nat, owed: set<Id>, iters: map<ItId, Iter>)
    requires Tracks(f, i, n, owed) && Legal(f, i, Foreign(iters))
    ensures Tracks(Step(f, i, Foreign(iters)), i, n, owed)
  {
    hide Sane, Owing, NoDup, IterOk;
    SaneTurn(f, i, Foreign(iters));
    var t := WithIters(f.s, iters);
    match f.phase
    case Started =>
    case Waiting(id) => OwingSame(f.s, t, n, owed + {id});
    case Finished => OwingSame(f.s, t, n, {});
    case _ => OwingSame(f.s, t, n, owed);
  }

  lemma TracksScan(f: Flusher, i: ItId, n: nat, owed: set<Id>)
    requires Tracks(f, i, n, owed) && f.phase.Started?
    ensures Tracks(Step(f, i, Scan), i, n, Elements(f.s.c.dirty.ring))
  {
    hide Sane, NoDup, IterOk, Launched;
    SaneTurn(f, i, Scan);
    SaneParts(f.s, {});
    AgreeParts(f.s.c);
    BeginSound(f.s.c.dirty, i);
    forall j | 0 <= j < n && InFlight(f.s, j)
      ensures f.s.submitted[j].id in Elements(f.s.c.dirty.ring)
    {
      OnDirtyList(f.s, f.s.submitted[j].id);
    }
    OwingSame(f.s, Step(f, i, Scan).s, n, Elements(f.s.c.dirty.ring));
  }

  /** The entry tested is owed no more: it is not being written, or it is waited for. */
  lemma TracksNext(f: Flusher, i: ItId, n: nat, owed: set<Id>) returns (left: set<Id>)
    requires Tracks(f, i, n, owed) && Legal(f, i, Next)
    ensures Tracks(Step(f, i, Next), i, n, left)
  {
    hide Sane, NoDup, IterOk, Owing, Advance;
    SaneTurn(f, i, Next);
    var s, l := f.s, f.s.c.dirty;
    if l.iters[i].e.None? {
      left := {};
      NothingOwed(l.ring, l.iters[i], owed);
      OwingSame(s, Test(s, i).s, n, {});
    } else {
      var id := l.iters[i].e.value;
      left := owed - {id};
      AdvanceIter(l.ring, l.iters[i], owed);
      if IsWriting(s.c.bufs)(id) { OwingMore(s, n, owed, id); } else { OwingLess(s, n, owed, id); }
      OwingSame(s, Test(s, i).s, n, if IsWriting(s.c.bufs)(id) then left + {id} else left);
    }
  }

  lemma OwingMore(s: Client, n: nat, ids: set<Id>, id: Id)
    requires Owing(s, n, ids)
    ensures Owing(s, n, ids - {id} + {id})
  {}

  lemma TracksTurn(f: Flusher, i: ItId, n: nat, owed: set<Id>, t: Turn) returns (left: set<Id>)
    requires Tracks(f, i, n, owed) && Legal(f, i, t)
    ensures Tracks(Step(f, i, t), i, n, left)
  {
    hide Sane, Fine, Owing, Test, Bufio.Step, Allowed, Listed, Change, WithIters;
    left := owed;
    match t
    case Other(e) => left := TracksOther(f, i, n, owed, e);
    case Foreign(iters) => TracksForeign(f, i, n, owed, iters);
    case Scan => left := Elements(f.s.c.dirty.ring); TracksScan(f, i, n, owed);
    case Next => left := TracksNext(f, i, n, owed);
    case Wake =>
      OwingLess(f.s, n, owed + {f.phase.id}, f.phase.id);
      OwingWider(f.s, n, owed + {f.phase.id} - {f.phase.id}, owed);
    case LetGo => left := TracksLetGo(f, i, n, owed);
  }

  lemma OwingWider(s: Client, n: nat, ids: set<Id>, more: set<Id>)
    requires Owing(s, n, ids) && ids <= more
    ensures Owing(s, n, more)
  {}

  lemma TracksLetGo(f: Flusher, i: ItId, n: nat, owed: set<Id>) returns (left: set<Id>)
    requires Tracks(f, i, n, owed) && Legal(f, i, LetGo)
    ensures Tracks(Step(f, i, LetGo), i, n, left)
  {
    hide Sane, Fine, Owing, Bufio.Step, Allowed, Listed, Change;
    CanSettle(f.s, f.phase.id);
    left := TracksOther(Flusher(f.s, Scanning), i, n, owed, Bufio.Settle(f.phase.id));
  }

  lemma {:induction false} TracksRun(f: Flusher, i: ItId, n: nat, owed: set<Id>, ts: seq<Turn>, r: Flusher) returns (left: set<Id>)
    requires Tracks(f, i, n, owed) && Reaches(f, i, ts, r)
    ensures Tracks(r, i, n, left)
    decreases |ts|
  {
    hide Sane, Legal, Step, Fine, Owing;
    if ts == [] {
      left := owed;
    } else {
      assert Goes(f, i, ts, r);
      left := TracksTurn(f, i, n, owed, ts[0]);
      left := TracksRun(Step(f, i, ts[0]), i, n, left, ts[1..], r);
    }
  }

  /** The routine's own step is possible, or the write it waits for can complete; and no buffer
      it is to wait for is being read. */
  ghost predicate CanGoOn(f: Flusher, i: ItId)
    requires Sane(f.s, {})
  {
    match f.phase
    case Started => Legal(f, i, Scan)
    case Scanning => Legal(f, i, Next) && var r := Step(f, i, Next); r.phase.Waiting? ==> r.phase.id in f.s.c.bufs && !f.s.c.bufs[r.phase.id].reading
    case Waiting(id) => Legal(f, i, Wake) || Allowed(f.s, WriteDone(id, true))
    case Woken(_) => Legal(f, i, LetGo)
    case Finished => true
  }

  lemma TracksGoesOn(f: Flusher, i: ItId, n: nat, owed: set<Id>)
    requires Tracks(f, i, n, owed)
    ensures CanGoOn(f, i)
  {
    hide Sane, NoDup, Owing, Advance;
    if f.phase.Scanning? && f.s.c.dirty.iters[i].e.Some? && IsWriting(f.s.c.bufs)(f.s.c.dirty.iters[i].e.value) {
      NotRead(f.s, f.s.c.dirty.iters[i].e.value);
    }
  }

  /** In every run the routine can go on: its iterator does not dangle, and the buffer it holds
      stays cached. */
  lemma NeverStuck(s: Client, io: Io, i: ItId, ts: seq<Turn>, f: Flusher)
    requires Sane(s, {}) && Reaches(Entered(s, io), i, ts, f)
    ensures Sane(f.s, {}) && CanGoOn(f, i)
  {
    hide Sane, Fine, Owing, Legal, Step, WriteAsync, CanGoOn;
    var owed := TracksRun(Entered(s, io), i, 0, {}, ts, f);
    TracksGoesOn(f, i, 0, owed);
  }

  lemma NotRead(s: Client, id: Id)
    requires Sane(s, {}) && id in s.c.bufs && id in s.c.dirty.ring
    ensures !s.c.bufs[id].reading
  {
    hide Agree, Marks, Logs, Places, Pool, RangeOk;
    assert BitsOk(s, id, {});
  }

  lemma {:induction false} RunGrowsOn(f: Flusher, i: ItId, ts: seq<Turn>, r: Flusher)
    requires Sane(f.s, {}) && Reaches(f, i, ts, r)
    ensures Sane(r.s, {}) && Grows(f.s, r.s)
    decreases |ts|
  {
    hide Sane, Legal, Step, Grows;
    if ts == [] {
      GrowsSame(f.s, f.s);
    } else {
      assert Goes(f, i, ts, r);
      SaneTurn(f, i, ts[0]);
      TurnGrows(f, i, ts[0]);
      RunGrowsOn(Step(f, i, ts[0]), i, ts[1..], r);
      GrowsOn(f.s, Step(f, i, ts[0]).s, r.s);
    }
  }

  lemma GrowsSame(s: Client, t: Client)
    requires t == s.(c := t.c)
    ensures Grows(s, t)
  {}

  lemma TurnGrows(f: Flusher, i: ItId, t: Turn)
    requires Sane(f.s, {}) && Legal(f, i, t)
    ensures Grows(f.s, Step(f, i, t).s)
  {
    hide Sane, Allowed, Bufio.Step, Grows, Advance, Listed;
    match t
    case Other(e) => StepGrows(f.s, e);
    case LetGo =>
      CanSettle(f.s, f.phase.id);
      StepGrows(f.s, Bufio.Settle(f.phase.id));
    case _ => GrowsSame(f.s, Step(f, i, t).s);
  }

  /** Whatever other calls, iterators and completions come in between, when
      dm_bufio_write_dirty_buffers returns every mark made before it was called has gone into a
      write that covers it, submitted before the routine began to wait, and that write has
      completed. */
  lemma FlushedAmongOthers(s: Client, io: Io, i: ItId, ts: seq<Turn>, r: Flusher, k: nat)
    requires Sane(s, {}) && k < |s.marks|
    requires Reaches(Entered(s, io), i, ts, r) && r.phase.Finished?
    ensures k < |r.s.marks| == |r.s.fate| && r.s.marks[k] == s.marks[k] && r.s.fate[k].Sent?
    ensures MarkOk(r.s, s.marks[k], r.s.fate[k])
    ensures r.s.fate[k].write < |Entered(s, io).s.submitted| && !InFlight(r.s, r.s.fate[k].write)
  {
    hide Sane, Agree, WriteAsync, Fine, Launched, Legal, Step, MarkOk;
    var t := Entered(s, io).s;
    AsyncNoneDirty(s, io);
    AsyncMarks(s, io);
    AllSent(t);
    RunGrowsOn(Flusher(t, Started), i, ts, r);
    var _ := TracksRun(Flusher(t, Started), i, |t.submitted|, {}, ts, r);
    MarkIn(t, k);
    MarkIn(r.s, k);
  }

  lemma MarkIn(s: Client, k: nat)
    requires Sane(s, {}) && k < |s.marks|
    ensures |s.marks| == |s.fate| && MarkOk(s, s.marks[k], s.fate[k]) && (s.fate[k].Sent? ==> s.fate[k].write < |s.submitted|)
  {
    hide Agree, Bits, Logs, Places, Pool;
  }
}
