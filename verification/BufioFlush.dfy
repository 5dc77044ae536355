/** dm_bufio_write_dirty_buffers of md/dm-bufio.c, the one user of the list iterators: write
    everything, then wait for each write in turn. */
module BufioFlush {
  import opened Collections
  import opened Lru
  import opened BufferCache
  import opened Bufio

  ghost predicate NoneDirty(c: Cache) { forall id :: id in c.bufs ==> !c.bufs[id].dirty }

  /* ---------- everything is under way ---------- */

  lemma {:induction false} WriteEachCleans(s: Client, ids: seq<Id>, io: Io, id: Id)
    requires |s.marks| == |s.fate| && id in s.c.bufs && forall i :: 0 <= i < |ids| ==> ids[i] in s.c.bufs
    requires id in ids || !s.c.bufs[id].dirty
    ensures !WriteEach(s, ids, false, io).c.bufs[id].dirty
    decreases |ids|
  {
    if ids != [] {
      assert ids == [ids[0]] + ids[1..];
      WriteEachCleans(WriteDirty(s, ids[0], io.earlier(ids[0])), ids[1..], io, id);
    }
  }

  /** A dirty buffer, and one being written, is on the dirty list. */
  lemma OnDirtyList(s: Client, id: Id)
    requires Sane(s, {}) && id in s.c.bufs && (s.c.bufs[id].dirty || s.c.bufs[id].writing)
    ensures id in s.c.dirty.ring
  {
    hide Agree, Marks, Logs, Places, Pool, RangeOk;
    assert BitsOk(s, id, {});
  }

  lemma AsyncNoneDirty(s: Client, io: Io)
    requires Sane(s, {})
    ensures Agree(s.c) && |s.marks| == |s.fate| && NoneDirty(WriteAsync(s, false, io).c)
  {
    hide Sane, Agree, NoDup, MoveAll, WriteEach, Cleaned;
    SaneParts(s, {});
    MoveCleanKeeps(s);
    var t := MoveClean(s);
    AgreeParts(t.c);
    forall id | id in t.c.bufs
      ensures !WriteEach(t, t.c.dirty.ring, false, io).c.bufs[id].dirty
    {
      if t.c.bufs[id].dirty { OnDirtyList(t, id); }
      WriteEachCleans(t, t.c.dirty.ring, io, id);
    }
  }

  /** With no buffer dirty, every mark has gone into a write. */
  lemma AllSent(s: Client)
    requires Sane(s, {}) && NoneDirty(s.c)
    ensures |s.marks| == |s.fate| && forall k :: 0 <= k < |s.fate| ==> s.fate[k].Sent?
  {
    hide Agree, Bits, Logs, Places, Pool;
    forall k | 0 <= k < |s.fate|
      ensures s.fate[k].Sent?
    {
      assert MarkOk(s, s.marks[k], s.fate[k]);
    }
  }

  /* ---------- what the loop keeps ---------- */

  /** Marks, writes, blocks and holders are those of s0, but for the holds of the caller. */
  ghost predicate Unchanged(s0: Client, s: Client, held: set<Id>) {
    && s.marks == s0.marks && s.fate == s0.fate && s.submitted == s0.submitted && s.c.bufs.Keys == s0.c.bufs.Keys
    && forall id :: id in s.c.bufs ==>
         && s.c.bufs[id].block == s0.c.bufs[id].block
         && s.c.bufs[id].hold == s0.c.bufs[id].hold + if id in held then 1 else 0
  }

  /** Nothing is dirty, and what is still being written the iterator owes a visit, but for the
      buffer at hand. */
  ghost predicate Flushing(s0: Client, s: Client, i: ItId, pending: set<Id>, now: set<Id>, held: set<Id>) {
    && Sane(s, {}) && NoneDirty(s.c) && Unchanged(s0, s, held)
    && i in s.c.dirty.iters && IterOk(s.c.dirty.ring, s.c.dirty.iters[i], pending)
    && forall id :: id in s.c.bufs && s.c.bufs[id].writing ==> id in pending || id in now
  }

  lemma UnchangedSame(s0: Client, s: Client, t: Client, held: set<Id>)
    requires Unchanged(s0, s, held)
    requires t.marks == s.marks && t.fate == s.fate && t.submitted == s.submitted && t.c.bufs == s.c.bufs
    ensures Unchanged(s0, t, held)
  {}

  /** Only iterators differ. */
  lemma IteratorsApart(s: Client, t: Client)
    requires Sane(s, {}) && t == s.(c := s.c.(dirty := s.c.dirty.(iters := t.c.dirty.iters)))
    ensures Sane(t, {})
  {
    hide Agree, NoDup, Marks, Logs, Pool, Places, Bits;
    AgreeParts(s.c);
    Permuted(s.c, t.c);
    SameRings(s, t);
    Relisted(s, t, {}, {});
  }

  lemma FlushBegins(s: Client, i: ItId)
    requires Sane(s, {}) && NoneDirty(s.c)
    ensures Flushing(s, s.(c := s.c.(dirty := Begin(s.c.dirty, i))), i, Elements(s.c.dirty.ring), {}, {})
  {
    hide Sane, Agree, NoDup, IterOk;
    SaneParts(s, {});
    AgreeParts(s.c);
    var t := s.(c := s.c.(dirty := Begin(s.c.dirty, i)));
    IteratorsApart(s, t);
    BeginSound(s.c.dirty, i);
    forall id | id in s.c.bufs && s.c.bufs[id].writing
      ensures id in Elements(s.c.dirty.ring)
    {
      OnDirtyList(s, id);
    }
  }

  lemma BeginSound(l: List, i: ItId)
    requires NoDup(l.ring)
    ensures IterOk(l.ring, Begin(l, i).iters[i], Elements(l.ring))
  {
    if l.ring != [] { BeginIter(l.ring); }
  }

  function IsWriting(bufs: map<Id, Buffer>): (p: Id -> bool) { (id: Id) => id in bufs && bufs[id].writing }

  /** The iterator has moved past entries that were not being written, up to r. */
  lemma FlushAdvances(s0: Client, s: Client, t: Client, i: ItId, pending: set<Id>, r: Option<Id>, tested: seq<Id>)
    requires Flushing(s0, s, i, pending, {}, {}) && t == s.(c := s.c.(dirty := s.c.dirty.(iters := t.c.dirty.iters)))
    requires i in t.c.dirty.iters && IterOk(t.c.dirty.ring, t.c.dirty.iters[i], pending - Elements(tested))
    requires r.Some? ==> tested != [] && r.value == tested[|tested| - 1]
    requires forall j :: 0 <= j < |tested| - (if r.Some? then 1 else 0) ==> !IsWriting(s.c.bufs)(tested[j])
    ensures Flushing(s0, t, i, pending - Elements(tested), if r.Some? then {r.value} else {}, {})
  {
    hide Sane, IterOk, Unchanged;
    IteratorsApart(s, t);
    UnchangedSame(s0, s, t, {});
    forall id | id in t.c.bufs && t.c.bufs[id].writing
      ensures id in pending - Elements(tested) || r == Some(id)
    {
      assert IsWriting(s.c.bufs)(id);
      if id in tested { var j :| 0 <= j < |tested| && tested[j] == id; }
    }
  }

  /** The buffer is held while it is waited for. */
  lemma FlushHolds(s0: Client, s: Client, i: ItId, pending: set<Id>, id: Id)
    requires Flushing(s0, s, i, pending, {id}, {}) && id in s.c.bufs
    ensures Flushing(s0, WithBuffer(s, id, s.c.bufs[id].(hold := s.c.bufs[id].hold + 1)), i, pending, {id}, {id})
  {
    hide Sane, IterOk, Unchanged;
    HoldKeeps(s, id, s.c.bufs[id].hold + 1);
    UnchangedHold(s0, s, id);
  }

  lemma UnchangedHold(s0: Client, s: Client, id: Id)
    requires Unchanged(s0, s, {}) && id in s.c.bufs
    ensures Unchanged(s0, WithBuffer(s, id, s.c.bufs[id].(hold := s.c.bufs[id].hold + 1)), {id})
  {}

  /** A write completes, of the buffer at hand or of another. */
  lemma FlushEnds(s0: Client, s: Client, i: ItId, pending: set<Id>, now: set<Id>, later: set<Id>, held: set<Id>, id: Id, status: bool)
    requires Flushing(s0, s, i, pending, now, held) && id in s.c.bufs && forall x :: x in now && x != id ==> x in later
    ensures Flushing(s0, WriteEnd(s, id, status), i, pending, later, held)
  {
    hide Sane, IterOk, WriteEnd;
    WriteEndKeeps(s, id, status, {});
    EndIs(s, id, status);
  }

  lemma EndIs(s: Client, id: Id, status: bool)
    requires id in s.c.bufs
    ensures var t := WriteEnd(s, id, status);
            && t.marks == s.marks && t.fate == s.fate && t.submitted == s.submitted && t.c.dirty == s.c.dirty
            && t.c.bufs.Keys == s.c.bufs.Keys && !t.c.bufs[id].writing
            && forall x :: x in s.c.bufs ==>
                 && t.c.bufs[x].block == s.c.bufs[x].block && t.c.bufs[x].hold == s.c.bufs[x].hold && t.c.bufs[x].dirty == s.c.bufs[x].dirty
                 && (t.c.bufs[x].writing ==> s.c.bufs[x].writing)
  {}

  /** Its write complete, the buffer goes to the clean list and is let go; the iterator moves
      off it. */
  lemma FlushSettles(s0: Client, s: Client, i: ItId, pending: set<Id>, id: Id)
    requires Flushing(s0, s, i, pending, {}, {id}) && id in s.c.bufs && id in s.c.dirty.ring && id !in pending && !s.c.bufs[id].writing
    ensures s.c.bufs[id].hold > 0 && id in ListOf(s.c, s.c.bufs[id].mode).ring
    ensures Flushing(s0, Settled(s, id), i, pending, {}, {}) && |Settled(s, id).c.dirty.ring| == |s.c.dirty.ring| - 1
  {
    hide Sane, Agree, NoDup, IterOk, Unchanged, Settled;
    SaneParts(s, {});
    AgreeParts(s.c);
    assert Listed(s.c, id);
    HeldOnce(s0, s, id);
    SettledKeeps(s, id);
    SettledIs(s, id);
    UnchangedSettled(s0, s, id);
    RemoveIter(s.c.dirty.ring, s.c.dirty.iters[i], pending, id);
    assert pending - {id} == pending;
  }

  lemma HeldOnce(s0: Client, s: Client, id: Id)
    requires Unchanged(s0, s, {id}) && id in s.c.bufs
    ensures s.c.bufs[id].hold > 0
  {}

  lemma SettledIs(s: Client, id: Id)
    requires id in s.c.bufs && s.c.bufs[id].hold > 0 && s.c.bufs[id].mode == Dirty && id in s.c.dirty.ring
    requires !s.c.bufs[id].dirty && !s.c.bufs[id].writing
    ensures Settled(s, id).c.dirty == Remove(s.c.dirty, id)
    ensures Settled(s, id).c.bufs == s.c.bufs[id := s.c.bufs[id].(mode := Clean, hold := s.c.bufs[id].hold - 1)]
    ensures Settled(s, id).marks == s.marks && Settled(s, id).fate == s.fate && Settled(s, id).submitted == s.submitted
  {}

  lemma UnchangedSettled(s0: Client, s: Client, id: Id)
    requires Unchanged(s0, s, {id}) && id in s.c.bufs && s.c.bufs[id].hold > 0 && s.c.bufs[id].mode == Dirty && id in s.c.dirty.ring
    requires !s.c.bufs[id].dirty && !s.c.bufs[id].writing
    ensures Unchanged(s0, Settled(s, id), {})
  {
    hide Settled;
    SettledIs(s, id);
  }

  /** On return nothing is dirty or being written any more. */
  lemma FlushDone(s0: Client, s: Client, i: ItId, pending: set<Id>)
    requires Flushing(s0, s, i, pending, {}, {}) && s.c.dirty.iters[i].e.None?
    ensures forall id :: id in s.c.bufs ==> !s.c.bufs[id].dirty && !s.c.bufs[id].writing
  {
    hide Sane;
    NothingOwed(s.c.dirty.ring, s.c.dirty.iters[i], pending);
  }

  /* ---------- the routine ---------- */

  /** Writes of other buffers may complete while one is waited for. */
  method CompleteOthers(c: DmBufioClient, ids: seq<(Id, bool)>, ghost s0: Client, i: ItId, ghost pending: set<Id>, ghost held: set<Id>)
    requires c.Valid() && Flushing(s0, c.State(), i, pending, {}, held)
    modifies c.cache
    ensures c.Valid() && Flushing(s0, c.State(), i, pending, {}, held)
    ensures forall id :: id in old(c.cache.bufs) && !old(c.cache.bufs)[id].writing ==> id in c.cache.bufs && !c.cache.bufs[id].writing
  {
    hide Sane, Agree, Flushing;
    for n := 0 to |ids|
      invariant c.Valid() && Flushing(s0, c.State(), i, pending, {}, held)
      invariant forall id :: id in old(c.cache.bufs) && !old(c.cache.bufs)[id].writing ==> id in c.cache.bufs && !c.cache.bufs[id].writing
    {
      var (id, status) := ids[n];
      if id in c.cache.bufs && c.cache.bufs[id].writing {
        FlushEnds(s0, c.State(), i, pending, {}, {}, held, id, status);
        c.WriteEndio(id, status, {});
      }
    }
  }

  /** One round: hold the buffer, wait for its write, move it to the clean list, let it go. */
  method WaitFor(c: DmBufioClient, id: Id, status: bool, others: seq<(Id, bool)>, ghost s0: Client, i: ItId, ghost pending: set<Id>)
    requires c.Valid() && Flushing(s0, c.State(), i, pending, {id}, {}) && id !in pending
    requires id in c.cache.bufs && c.cache.bufs[id].writing && id in c.cache.dirty.ring
    modifies c, c.cache, c.cache.clean, c.cache.dirty
    ensures c.Valid() && Flushing(s0, c.State(), i, pending, {}, {}) && |c.cache.dirty.ring| == |old(c.cache.dirty.ring)| - 1
  {
    hide Sane, Agree, Flushing;
    FlushHolds(s0, c.State(), i, pending, id);
    HoldKeeps(c.State(), id, c.cache.bufs[id].hold + 1);
    SaneParts(WithBuffer(c.State(), id, c.cache.bufs[id].(hold := c.cache.bufs[id].hold + 1)), {});
    c.cache.bufs := c.cache.bufs[id := c.cache.bufs[id].(hold := c.cache.bufs[id].hold + 1)];
    FlushEnds(s0, c.State(), i, pending, {id}, {}, {id}, id, status);
    c.WriteEndio(id, status, {});
    CompleteOthers(c, others, s0, i, pending, {id});
    FlushSettles(s0, c.State(), i, pending, id);
    c.SettleHeld(id);
  }

  /** dm_bufio_write_dirty_buffers. Every mark made before the call has gone into a write to its
      block that covers it, and all these writes are complete, although the iterator skips what
      is not being written and the ring changes under it. done gives the outcome of each wait,
      others the writes that complete meanwhile. */
  method WriteDirtyBuffers(c: DmBufioClient, i: ItId, io: Io, done: nat -> bool, others: nat -> seq<(Id, bool)>)
    requires c.Valid()
    modifies c, c.cache, c.cache.clean, c.cache.dirty
    ensures c.Valid() && Agree(old(c.cache.State())) && |old(c.marks)| == |old(c.fate)|
    ensures Unchanged(WriteAsync(old(c.State()), false, io), c.State(), {})
    ensures c.marks == old(c.marks) && |c.fate| == |c.marks| && forall k :: 0 <= k < |c.fate| ==> c.fate[k].Sent?
    ensures forall id :: id in c.cache.bufs ==> !c.cache.bufs[id].dirty && !c.cache.bufs[id].writing
    ensures i !in c.cache.dirty.iters
  {
    hide Sane, Agree, Flushing, WriteAsync;
    AsyncNoneDirty(c.State(), io);
    AsyncMarks(c.State(), io);
    c.WriteDirtyBuffersAsync(false, io);
    ghost var s0 := c.State();
    Start(c, i);
    ghost var pending := Elements(c.cache.dirty.ring);
    var n, more := 0, true;
    while more
      invariant c.Valid() && Flushing(s0, c.State(), i, pending, {}, {})
      invariant !more ==> i in c.cache.dirty.iters && c.cache.dirty.iters[i].e.None?
      decreases more, |c.cache.dirty.ring|
    {
      var r;
      r, pending := NextWriting(c, s0, i, pending);
      if r.None? {
        more := false;
      } else {
        WaitFor(c, r.value, done(n), others(n), s0, i, pending);
        n := n + 1;
      }
    }
    FlushDone(s0, c.State(), i, pending);
    Finish(c, s0, i, pending);
  }

  method Start(c: DmBufioClient, i: ItId)
    requires c.Valid() && NoneDirty(c.cache.State())
    modifies c.cache.dirty`iters
    ensures c.Valid() && Flushing(old(c.State()), c.State(), i, Elements(c.cache.dirty.ring), {}, {})
  {
    hide Sane, Agree, IterOk;
    FlushBegins(c.State(), i);
    c.cache.dirty.IterBegin(i);
    SaneParts(c.State(), {});
  }

  method NextWriting(c: DmBufioClient, ghost s0: Client, i: ItId, ghost pending: set<Id>) returns (r: Option<Id>, ghost left: set<Id>)
    requires c.Valid() && Flushing(s0, c.State(), i, pending, {}, {})
    modifies c.cache.dirty`iters
    ensures c.Valid() && Flushing(s0, c.State(), i, left, if r.Some? then {r.value} else {}, {})
    ensures r.Some? ==> r.value !in left && r.value in c.cache.bufs && c.cache.bufs[r.value].writing && r.value in c.cache.dirty.ring
    ensures r.None? ==> i in c.cache.dirty.iters && c.cache.dirty.iters[i].e.None?
  {
    hide Sane, Agree, IterOk;
    ghost var s := c.State();
    ghost var tested;
    r, tested := c.cache.dirty.IterNext(i, IsWriting(c.cache.bufs), pending);
    left := pending - Elements(tested);
    ghost var t := c.State();
    assert t == s.(c := s.c.(dirty := s.c.dirty.(iters := t.c.dirty.iters)));
    FlushAdvances(s0, s, t, i, pending, r, tested);
    SaneParts(t, {});
    if r.Some? {
      assert tested[|tested| - 1] in Elements(tested);
      OnDirtyList(t, r.value);
    }
  }

  method Finish(c: DmBufioClient, ghost s0: Client, i: ItId, ghost pending: set<Id>)
    requires c.Valid() && Flushing(s0, c.State(), i, pending, {}, {})
    modifies c.cache.dirty`iters
    ensures c.Valid() && Unchanged(s0, c.State(), {}) && c.cache.bufs == old(c.cache.bufs) && i !in c.cache.dirty.iters
    ensures |c.fate| == |c.marks| && forall k :: 0 <= k < |c.fate| ==> c.fate[k].Sent?
  {
    hide Sane, Agree, IterOk;
    ghost var s := c.State();
    AllSent(s);
    c.cache.dirty.IterEnd(i);
    IteratorsApart(s, c.State());
    SaneParts(c.State(), {});
  }

  lemma AsyncMarks(s: Client, io: Io)
    requires Agree(s.c) && |s.marks| == |s.fate|
    ensures WriteAsync(s, false, io).marks == s.marks
  {
    hide MoveAll, WriteEach, Agree;
  }
}
