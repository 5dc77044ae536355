/** The dirty ranges of md/dm-bufio.c from the other side: every byte marked is written, and here no
    write reaches beyond what was marked. */
module BufioRanges {
  import opened Collections
  import opened Lru
  import opened BufferCache
  import opened Bufio
  import opened BufioViews

  /** Mark k is owed by the buffer. */
  ghost predicate OwedBy(s: Client, id: Id, k: nat) { k < |s.marks| && k < |s.fate| && s.fate[k] == Owed && s.marks[k].id == id }

  ghost predicate SentIn(s: Client, j: nat, k: nat) { k < |s.marks| && k < |s.fate| && s.fate[k] == Sent(j) }

  /** The range begins where an owed mark does and ends where one does. */
  ghost predicate TightBuffer(s: Client, id: Id)
    requires id in s.c.bufs
  {
    s.c.bufs[id].dirty ==>
      && (exists k: nat :: OwedBy(s, id, k) && s.marks[k].start == s.c.bufs[id].dirtyStart)
      && (exists k: nat :: OwedBy(s, id, k) && s.marks[k].end == s.c.bufs[id].dirtyEnd)
  }

  ghost predicate TightWrite(s: Client, j: nat)
    requires j < |s.submitted|
  {
    && (exists k: nat :: SentIn(s, j, k) && s.marks[k].start == s.submitted[j].start)
    && (exists k: nat :: SentIn(s, j, k) && s.marks[k].end == s.submitted[j].end)
  }

  ghost predicate Tight(s: Client) {
    (forall id :: id in s.c.bufs ==> TightBuffer(s, id)) && forall j :: 0 <= j < |s.submitted| ==> TightWrite(s, j)
  }

  /** No buffer is dirty that was not, or in another range. */
  ghost predicate SameDirt(s: Client, t: Client) {
    && t.marks == s.marks && t.fate == s.fate && t.submitted == s.submitted
    && forall id :: id in t.c.bufs && t.c.bufs[id].dirty ==>
         id in s.c.bufs && s.c.bufs[id].dirty && t.c.bufs[id].dirtyStart == s.c.bufs[id].dirtyStart && t.c.bufs[id].dirtyEnd == s.c.bufs[id].dirtyEnd
  }

  lemma TightSame(s: Client, t: Client)
    requires Tight(s) && SameDirt(s, t)
    ensures Tight(t)
  {
    forall id | id in t.c.bufs
      ensures TightBuffer(t, id)
    {
      if t.c.bufs[id].dirty {
        assert TightBuffer(s, id);
        var k: nat :| OwedBy(s, id, k) && s.marks[k].start == s.c.bufs[id].dirtyStart;
        var l: nat :| OwedBy(s, id, l) && s.marks[l].end == s.c.bufs[id].dirtyEnd;
        assert OwedBy(t, id, k) && OwedBy(t, id, l);
      }
    }
    forall j | 0 <= j < |t.submitted|
      ensures TightWrite(t, j)
    {
      assert TightWrite(s, j);
      var k: nat :| SentIn(s, j, k) && s.marks[k].start == s.submitted[j].start;
      var l: nat :| SentIn(s, j, l) && s.marks[l].end == s.submitted[j].end;
      assert SentIn(t, j, k) && SentIn(t, j, l);
    }
  }

  lemma SameDirtOn(s: Client, t: Client, u: Client)
    requires SameDirt(s, t) && SameDirt(t, u)
    ensures SameDirt(s, u)
  {}

  /* ---------- writing ---------- */

  lemma TightWriteDirty(s: Client, id: Id, status: bool)
    requires id in s.c.bufs && |s.marks| == |s.fate| && Tight(s)
    ensures Tight(WriteDirty(s, id, status))
  {
    var t := WriteDirty(s, id, status);
    if s.c.bufs[id].dirty {
      forall x | x in t.c.bufs
        ensures TightBuffer(t, x)
      {
        assert TightBuffer(s, x);
        if t.c.bufs[x].dirty {
          var k: nat :| OwedBy(s, x, k) && s.marks[k].start == s.c.bufs[x].dirtyStart;
          var l: nat :| OwedBy(s, x, l) && s.marks[l].end == s.c.bufs[x].dirtyEnd;
          assert OwedBy(t, x, k) && OwedBy(t, x, l);
        }
      }
      forall j | 0 <= j < |t.submitted|
        ensures TightWrite(t, j)
      {
        if j < |s.submitted| { SentStay(s, t, j); } else { JustSent(s, id, status); }
      }
    }
  }

  lemma SentStay(s: Client, t: Client, j: nat)
    requires j < |s.submitted| && TightWrite(s, j) && t.marks == s.marks && |t.fate| == |s.fate| && s.submitted <= t.submitted
    requires forall i :: 0 <= i < |s.fate| && s.fate[i].Sent? ==> t.fate[i] == s.fate[i]
    ensures TightWrite(t, j)
  {
    var k: nat :| SentIn(s, j, k) && s.marks[k].start == s.submitted[j].start;
    var l: nat :| SentIn(s, j, l) && s.marks[l].end == s.submitted[j].end;
    assert SentIn(t, j, k) && SentIn(t, j, l);
  }

  lemma JustSent(s: Client, id: Id, status: bool)
    requires id in s.c.bufs && |s.marks| == |s.fate| && TightBuffer(s, id) && s.c.bufs[id].dirty
    ensures |WriteDirty(s, id, status).submitted| == |s.submitted| + 1 && TightWrite(WriteDirty(s, id, status), |s.submitted|)
  {
    var t := WriteDirty(s, id, status);
    var k: nat :| OwedBy(s, id, k) && s.marks[k].start == s.c.bufs[id].dirtyStart;
    var l: nat :| OwedBy(s, id, l) && s.marks[l].end == s.c.bufs[id].dirtyEnd;
    assert SentIn(t, |s.submitted|, k) && SentIn(t, |s.submitted|, l);
  }

  lemma {:induction false} TightWriteEach(s: Client, ids: seq<Id>, noWait: bool, io: Io)
    requires |s.marks| == |s.fate| && Tight(s) && forall i :: 0 <= i < |ids| ==> ids[i] in s.c.bufs
    ensures Tight(WriteEach(s, ids, noWait, io))
    decreases |ids|
  {
    hide Tight, WriteDirty;
    if ids != [] && !(noWait && s.c.bufs[ids[0]].writing) {
      TightWriteDirty(s, ids[0], io.earlier(ids[0]));
      TightWriteEach(WriteDirty(s, ids[0], io.earlier(ids[0])), ids[1..], noWait, io);
    }
  }

  lemma TightAsync(s: Client, noWait: bool, io: Io)
    requires Sane(s, {}) && Tight(s)
    ensures Agree(s.c) && |s.marks| == |s.fate| && Tight(WriteAsync(s, noWait, io))
  {
    hide Sane, Agree, NoDup, MoveAll, WriteEach, Cleaned, Tight;
    SaneParts(s, {});
    var t := MoveClean(s);
    MovedDirt(s);
    TightSame(s, t);
    AgreeParts(t.c);
    TightWriteEach(t, t.c.dirty.ring, noWait, io);
  }

  lemma MovedDirt(s: Client)
    requires Sane(s, {})
    ensures Agree(s.c) && SameDirt(s, MoveClean(s))
  {
    hide Sane, Agree, NoDup, MoveAll, Cleaned;
    SaneParts(s, {});
    forall id | id in MoveClean(s).c.bufs
      ensures id in s.c.bufs && SameIo(s.c.bufs[id], MoveClean(s).c.bufs[id])
    {
      assert MoveClean(s).c.bufs.Keys == s.c.bufs.Keys;
      MoveWhere(s, id);
    }
  }

  lemma TightMakeClean(s: Client, id: Id, io: Io)
    requires id in s.c.bufs && |s.marks| == |s.fate| && Tight(s)
    ensures Tight(MakeClean(s, id, io))
  {
    hide Tight, WriteDirty, SameDirt, ReadEnd, WriteEnd;
    EndsDirt(s, id, io.read);
    NoDirt(s);
    if !Quiet(s.c.bufs[id]) {
      var s1 := if s.c.bufs[id].reading then ReadEnd(s, id, io.read) else s;
      TightSame(s, s1);
      TightWriteDirty(s1, id, io.earlier(id));
      var s2 := WriteDirty(s1, id, io.earlier(id));
      EndsDirt(s2, id, io.last);
      if s2.c.bufs[id].writing { TightSame(s2, WriteEnd(s2, id, io.last)); }
    }
  }

  lemma EndsDirt(s: Client, id: Id, status: bool)
    requires id in s.c.bufs
    ensures SameDirt(s, ReadEnd(s, id, status)) && SameDirt(s, WriteEnd(s, id, status))
    ensures id in ReadEnd(s, id, status).c.bufs && |ReadEnd(s, id, status).marks| == |s.marks| && |ReadEnd(s, id, status).fate| == |s.fate|
  {}

  lemma TightTakeOut(s: Client, m: Mode, pred: Id -> Verdict, io: Io)
    requires HashInRange(s.c) && |s.marks| == |s.fate| && Tight(s)
    ensures Tight(TakeOut(s, m, pred, io).0)
  {
    hide Tight, CacheEvict, MakeClean;
    var (d, x) := CacheEvict(s.c, m, pred);
    var t := if x.Some? then s.(c := d, hand := s.hand + {x.value}) else s.(c := d);
    TightSame(s, t);
    if x.Some? { TightMakeClean(t, x.value, io); }
  }

  lemma TightUnclaimed(s: Client, io: Io)
    requires HashInRange(s.c) && |s.marks| == |s.fate| && Tight(s)
    ensures Tight(GetUnclaimed(s, io).0)
  {
    hide Tight, TakeOut, IsClean, IsDirty;
    TightTakeOut(s, Clean, IsClean(s.c.bufs, s.noSleep), io);
    var t := TakeOut(s, Clean, IsClean(s.c.bufs, s.noSleep), io).0;
    TightTakeOut(t, Dirty, IsDirty(t.c.bufs), io);
  }

  lemma FreeDirt(s: Client, id: Id)
    requires id in s.c.bufs
    ensures SameDirt(s, Free(s, id))
  {}

  lemma {:induction false} FreeAllDirt(s: Client, out: seq<Id>)
    ensures SameDirt(s, FreeAll(s, out))
    decreases |out|
  {
    hide Free;
    if out != [] && out[0] in s.c.bufs {
      FreeDirt(s, out[0]);
      FreeAllDirt(Free(s, out[0]), out[1..]);
      SameDirtOn(s, Free(s, out[0]), FreeAll(s, out));
    }
  }

  /* ---------- each call ---------- */

  lemma GetDirt(s: Client, block: Block)
    requires s.c.hash(block) < |s.c.trees| && (Lookup(s.c, block).Some? ==> Lookup(s.c, block).value in s.c.bufs)
    ensures SameDirt(s, s.(c := CacheGet(s.c, block).0))
  {
    hide Lookup;
  }

  lemma FoundDirt(s: Client, id: Id, nf: Flag)
    requires id in s.c.bufs && s.c.bufs[id].hold > 0
    ensures SameDirt(s, Found(s, id, nf).0)
  {}

  lemma TightNew(s: Client, e: Bufio.Event)
    requires Sane(s, {}) && Allowed(s, e) && (e.Fast? || e.Alloc?) && Tight(s)
    ensures Tight(NewStep(s, e))
  {
    hide Sane, Agree, Tight, GetUnclaimed, CacheGet, Found, Lookup, SameDirt;
    SaneParts(s, {});
    match e
    case Fast(block, nf) =>
      FastPathKeeps(s, block, nf);
      GetDirt(s, block);
      var (d, x) := CacheGet(s.c, block);
      TightSame(s, s.(c := d));
      if x.Some? {
        GetHeld(s.c, block);
        FoundDirt(s.(c := d), x.value, nf);
        TightSame(s.(c := d), Found(s.(c := d), x.value, nf).0);
      }
    case Alloc(given, nf, io) =>
      TightUnclaimed(s, io);
      AllocDirt(s, given);
      if given.Some? { TightSame(s, WithBuffer(s, given.value, BLANK).(hand := s.hand + {given.value})); }
      if s.reserved != [] { TightSame(s, s.(reserved := s.reserved[1..], need := s.need + 1, hand := s.hand + {s.reserved[0]})); }
  }

  lemma AllocDirt(s: Client, given: Option<Id>)
    ensures given.Some? ==> SameDirt(s, WithBuffer(s, given.value, BLANK).(hand := s.hand + {given.value}))
    ensures s.reserved != [] ==> SameDirt(s, s.(reserved := s.reserved[1..], need := s.need + 1, hand := s.hand + {s.reserved[0]}))
  {}

  lemma GetHeld(c: Cache, block: Block)
    requires c.hash(block) < |c.trees| && (Lookup(c, block).Some? ==> Lookup(c, block).value in c.bufs)
    ensures var (d, x) := CacheGet(c, block); x.Some? ==> x.value in d.bufs && d.bufs[x.value].hold > 0
  {
    hide Lookup;
  }

  lemma TightEnter(s: Client, id: Id, block: Block, nf: Flag, io: Io)
    requires Sane(s, {}) && id in s.hand && Tight(s)
    ensures Agree(s.c) && |s.marks| == |s.fate| && id in s.c.bufs && !Listed(s.c, id) && Tight(Enter(s, id, block, nf, io).0)
  {
    hide Sane, Agree, Tight, CacheGet, Found, Lookup, SameDirt, Free, WriteAsync, CacheInsert, Prepared;
    SaneParts(s, {});
    HandIn(s, id);
    GetIs(s.c, block, id);
    GetDirt(s, block);
    var (d, x) := CacheGet(s.c, block);
    var t := s.(c := d);
    TightSame(s, t);
    if x.Some? {
      GetHeld(s.c, block);
      GetUnlisted(s.c, block, id);
      FreeDirt(t, id);
      TightSame(t, Free(t, id));
      GetFinds(s.c, block);
      FreeLeaves(t, id, x.value);
      FoundDirt(Free(t, id), x.value, nf);
      TightSame(Free(t, id), Found(Free(t, id), x.value, nf).0);
    } else {
      TightAsync(s, true, io);
      TightInsert(CheckWatermark(s, io), id, block, nf);
    }
  }

  lemma GetFinds(c: Cache, block: Block)
    requires c.hash(block) < |c.trees| && (Lookup(c, block).Some? ==> Lookup(c, block).value in c.bufs)
    ensures CacheGet(c, block).1 == Lookup(c, block)
  {
    hide Lookup;
  }

  lemma TightInsert(s: Client, id: Id, block: Block, nf: Flag)
    requires Tight(s) && id in s.c.bufs && s.c.hash(block) < |s.c.trees|
    ensures var u := WithBuffer(s, id, Prepared(s.c.bufs[id], block, nf)); Tight(u.(c := CacheInsert(u.c, id).0, hand := u.hand - {id}))
  {
    hide Tight, Lookup;
    var u := WithBuffer(s, id, Prepared(s.c.bufs[id], block, nf));
    TightSame(s, u.(c := CacheInsert(u.c, id).0, hand := u.hand - {id}));
  }

  lemma PutDirt(s: Client, id: Id)
    requires id in s.c.bufs && s.c.bufs[id].hold > 0
    ensures SameDirt(s, PutHold(s, id))
  {}

  lemma RemoveOrPutDirt(s: Client, id: Id, unwanted: bool)
    requires id in s.c.bufs && s.c.bufs[id].hold > 0
    requires s.c.hash(s.c.bufs[id].block) < |s.c.trees| && id in ListOf(s.c, s.c.bufs[id].mode).ring
    ensures SameDirt(s, RemoveOrPut(s, id, unwanted))
  {
    hide Unlink, Free, PutHold, SameDirt;
    UnlinkBufs(s.c, id);
    PutDirt(s, id);
    SameBufsDirt(s, Removed(s, id));
    if unwanted && s.c.bufs[id].hold == 1 {
      FreeDirt(Removed(s, id), id);
      SameDirtOn(s, Removed(s, id), Free(Removed(s, id), id));
    }
  }

  lemma ForgetDirt(s: Client, block: Block)
    requires Sane(s, {})
    ensures HashInRange(s.c)
    ensures Lookup(s.c, block).Some? ==>
              var x := Lookup(s.c, block).value;
              x in s.c.bufs && s.c.bufs[x].block == block && x in ListOf(s.c, s.c.bufs[x].mode).ring
    ensures SameDirt(s, ForgetBlock(s, block))
  {
    hide Sane, Agree, Lookup, RemoveOrPut, SameDirt;
    SaneParts(s, {});
    ForgetKeeps(s, block);
    GetAgrees(s.c, block);
    GetDirt(s, block);
    var (d, x) := CacheGet(s.c, block);
    NoDirt(s);
    if x.Some? {
      LookupIsPlainMap(s.c, block, x.value);
      RemoveOrPutDirt(s.(c := d), x.value, Quiet(d.bufs[x.value]));
      SameDirtOn(s, s.(c := d), RemoveOrPut(s.(c := d), x.value, Quiet(d.bufs[x.value])));
    }
  }

  lemma NoDirt(s: Client)
    ensures SameDirt(s, s)
  {}

  lemma TightFree(s: Client, e: Bufio.Event)
    requires Sane(s, {}) && Allowed(s, e) && (e.Release? || e.Forget? || e.ForgetRange? || e.Reclaim?) && Tight(s)
    ensures Tight(FreeStep(s, e))
  {
    hide Sane, Agree, Tight, Lookup, RemoveOrPut, ForgetBlock, FreeAll, TakeOut, Free, SameDirt;
    SaneParts(s, {});
    match e
    case Release(id) =>
      ReleaseKeeps(s, id);
      RemoveOrPutDirt(s, id, (s.c.bufs[id].readError || s.c.bufs[id].writeError) && Quiet(s.c.bufs[id]));
      TightSame(s, ReleaseBuffer(s, id));
    case Forget(block) =>
      ForgetDirt(s, block);
      TightSame(s, ForgetBlock(s, block));
    case ForgetRange(begin, end, d, out) =>
      var t := s.(c := d, hand := s.hand + Elements(out));
      SameBufsDirt(s, t);
      TightSame(s, t);
      FreeAllDirt(t, out);
      TightSame(t, FreeAll(t, out));
    case Reclaim(m, pred, io) =>
      TightTakeOut(s, m, pred, io);
      var (t, x) := TakeOut(s, m, pred, io);
      if x.Some? {
        FreeDirt(t, x.value);
        TightSame(t, Free(t, x.value));
      }
  }

  lemma SameBufsDirt(s: Client, t: Client)
    requires t.marks == s.marks && t.fate == s.fate && t.submitted == s.submitted && t.c.bufs == s.c.bufs
    ensures SameDirt(s, t)
  {}

  /** The range becomes the hull of what is owed. */
  lemma TightMark(s: Client, id: Id, start: nat, end: nat)
    requires Sane(s, {}) && Listed(s.c, id) && id in s.c.bufs && Tight(s)
    ensures id in ListOf(s.c, s.c.bufs[id].mode).ring && Tight(MarkDirty(s, id, start, end))
  {
    hide Sane, Agree, CacheMark;
    SaneParts(s, {});
    MarkWhere(s.c, id, Dirty, id);
    var t := MarkDirty(s, id, start, end);
    MarkedAs(s, id, start, end);
    var n := |s.marks|;
    assert OwedBy(t, id, n) && t.marks[n].start == start && t.marks[n].end == end;
    forall x | x in t.c.bufs
      ensures TightBuffer(t, x)
    {
      OwedStay(s, t, x);
    }
    forall j | 0 <= j < |t.submitted|
      ensures TightWrite(t, j)
    {
      assert TightWrite(s, j);
      var k: nat :| SentIn(s, j, k) && s.marks[k].start == s.submitted[j].start;
      var l: nat :| SentIn(s, j, l) && s.marks[l].end == s.submitted[j].end;
      assert SentIn(t, j, k) && SentIn(t, j, l);
    }
  }

  lemma OwedStay(s: Client, t: Client, x: Id)
    requires x in t.c.bufs && x in s.c.bufs && TightBuffer(s, x) && s.marks <= t.marks && s.fate <= t.fate && |s.marks| == |s.fate|
    requires t.c.bufs[x].dirty ==>
               && ((s.c.bufs[x].dirty && t.c.bufs[x].dirtyStart == s.c.bufs[x].dirtyStart) || exists k: nat :: OwedBy(t, x, k) && t.marks[k].start == t.c.bufs[x].dirtyStart)
               && ((s.c.bufs[x].dirty && t.c.bufs[x].dirtyEnd == s.c.bufs[x].dirtyEnd) || exists k: nat :: OwedBy(t, x, k) && t.marks[k].end == t.c.bufs[x].dirtyEnd)
    ensures TightBuffer(t, x)
  {
    if s.c.bufs[x].dirty {
      var k: nat :| OwedBy(s, x, k) && s.marks[k].start == s.c.bufs[x].dirtyStart;
      var l: nat :| OwedBy(s, x, l) && s.marks[l].end == s.c.bufs[x].dirtyEnd;
      assert OwedBy(t, x, k) && OwedBy(t, x, l);
    }
  }

  /** Marking changes the range of one buffer: to the mark, or to take it in. */
  lemma MarkedAs(s: Client, id: Id, start: nat, end: nat)
    requires id in s.c.bufs && id in ListOf(s.c, s.c.bufs[id].mode).ring && |s.marks| == |s.fate|
    ensures var t, b := MarkDirty(s, id, start, end), s.c.bufs[id];
            && t.marks == s.marks + [Mark(id, b.block, start, end)] && t.fate == s.fate + [Owed] && t.submitted == s.submitted
            && t.c.bufs.Keys == s.c.bufs.Keys
            && (t.c.bufs[id].dirtyStart == start || (b.dirty && t.c.bufs[id].dirtyStart == b.dirtyStart))
            && (t.c.bufs[id].dirtyEnd == end || (b.dirty && t.c.bufs[id].dirtyEnd == b.dirtyEnd))
            && forall x :: x in s.c.bufs && x != id ==> t.c.bufs[x] == s.c.bufs[x]
  {
    hide Remove;
  }

  lemma TightWriteStep(s: Client, e: Bufio.Event)
    requires Sane(s, {}) && Allowed(s, e) && (e.MarkPartial? || e.Flush? || e.Watermark? || e.Settle?) && Tight(s)
    ensures Tight(WriteStep(s, e))
  {
    hide Sane, Agree, Tight, WriteAsync, MarkDirty, Settled, SameDirt;
    SaneParts(s, {});
    match e
    case MarkPartial(id, start, end) => TightMark(s, id, start, end);
    case Flush(noWait, io) => TightAsync(s, noWait, io);
    case Watermark(io) => TightAsync(s, true, io);
    case Settle(id) =>
      SettledDirt(s, id);
      TightSame(s, Settled(s, id));
  }

  lemma SettledDirt(s: Client, id: Id)
    requires Sane(s, {}) && Listed(s.c, id) && id in s.c.bufs && s.c.bufs[id].hold > 0
    ensures id in ListOf(s.c, s.c.bufs[id].mode).ring && SameDirt(s, Settled(s, id))
  {
    hide Sane, Agree, CacheMark, PutHold, SameDirt;
    SaneParts(s, {});
    MarkWhere(s.c, id, Clean, id);
    MarkHolds(s.c, id, Clean);
    MarkDirt(s, id, Clean);
    NoDirt(s);
    var t := if !s.c.bufs[id].dirty && !s.c.bufs[id].writing then s.(c := CacheMark(s.c, id, Clean)) else s;
    PutDirt(t, id);
    SameDirtOn(s, t, PutHold(t, id));
  }

  lemma MarkDirt(s: Client, id: Id, m: Mode)
    requires id in s.c.bufs && id in ListOf(s.c, s.c.bufs[id].mode).ring
    ensures SameDirt(s, s.(c := CacheMark(s.c, id, m)))
  {
    hide Remove;
  }

  lemma TightStep(s: Client, e: Bufio.Event)
    requires Sane(s, {}) && Allowed(s, e) && Tight(s)
    ensures Tight(Bufio.Step(s, e))
  {
    hide Sane, Tight, NewStep, FreeStep, WriteStep;
    match e
    case Fast(_, _) | Alloc(_, _, _) => TightNew(s, e);
    case Use(id, block, nf, io) => TightUse(s, e);
    case Release(_) | Forget(_) | ForgetRange(_, _, _, _) | Reclaim(_, _, _) => TightFree(s, e);
    case MarkPartial(_, _, _) | Flush(_, _) | Watermark(_) | Settle(_) => TightWriteStep(s, e);
    case _ => TightSame(s, Bufio.Step(s, e));
  }

  lemma TightUse(s: Client, e: Bufio.Event)
    requires Sane(s, {}) && Allowed(s, e) && e.Use? && Tight(s)
    ensures Tight(NewStep(s, e))
  {
    hide Sane, Tight, Enter;
    TightEnter(s, e.id, e.block, e.nf, e.io);
  }

  lemma {:induction false} TightRun(s: Client, es: seq<Bufio.Event>, t: Client)
    requires Sane(s, {}) && Tight(s) && Bufio.Reaches(s, es, t)
    ensures Tight(t)
    decreases |es|
  {
    hide Sane, Allowed, Bufio.Step, Tight;
    if es != [] {
      assert Bufio.Goes(s, es, t);
      SaneStep(s, es[0]);
      TightStep(s, es[0]);
      TightRun(Bufio.Step(s, es[0]), es[1..], t);
    }
  }

  /** In every run each write begins where one of its marks begins and ends where one ends, so it is
      the hull of what was marked since the write before. */
  lemma NoByteUnmarked(s: Client, es: seq<Bufio.Event>, t: Client, j: nat)
    requires Created(s) && Sane(s, {}) && Bufio.Reaches(s, es, t) && j < |t.submitted|
    ensures TightWrite(t, j)
  {
    hide Sane, Bufio.Reaches, TightWrite;
    FreshTight(s);
    TightRun(s, es, t);
  }

  lemma FreshTight(s: Client)
    requires Created(s)
    ensures Tight(s)
  {
    hide Agree;
  }
}
