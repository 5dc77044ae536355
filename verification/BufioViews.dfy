/** What the callers of md/dm-bufio.c see of the cache: which blocks are cached in which buffers,
    who holds them, and how their last read and write went.

    Each call does to this view what a plain cache of blocks would do, and takes out a buffer only
    where it may. */
module BufioViews {
  import opened Collections
  import opened Lru
  import opened BufferCache
  import opened Bufio
  import opened BufioFlush

  /** A cached buffer. */
  datatype View = View(block: Block, hold: int, reading: bool, readError: bool, writeError: bool)

  function ViewOf(b: Buffer): (v: View) { View(b.block, b.hold, b.reading, b.readError, b.writeError) }

  /** The buffer as a cached one, if it is. */
  ghost function Where(c: Cache, id: Id): (w: Option<View>) {
    if Listed(c, id) && id in c.bufs then Some(ViewOf(c.bufs[id])) else None
  }

  /* ---------- each operation on the view ---------- */

  lemma FreeWhere(s: Client, x: Id, id: Id)
    requires x in s.c.bufs && !Listed(s.c, x)
    ensures Where(Free(s, x).c, id) == Where(s.c, id)
  {}

  lemma MoveWhere(s: Client, id: Id)
    requires Sane(s, {})
    ensures Agree(s.c) && Where(MoveClean(s).c, id) == Where(s.c, id)
    ensures id in s.c.bufs ==> id in MoveClean(s).c.bufs && SameIo(s.c.bufs[id], MoveClean(s).c.bufs[id])
  {
    hide Sane, Agree, NoDup, MoveAll, Cleaned;
    SaneParts(s, {});
    MovedNone(s.c, Dirty, Clean, Cleaned(s.c.bufs));
    MoveAllMoves(s.c, s.c, Dirty, Clean, Cleaned(s.c.bufs));
    MovedListed(s.c, MoveClean(s).c, id);
    if id in s.c.bufs { MovedFields(s.c, MoveClean(s).c, id); }
  }

  lemma MovedFields(c: Cache, d: Cache, id: Id)
    requires Moved(c, d, Dirty, Clean, Cleaned(c.bufs)) && id in c.bufs
    ensures id in d.bufs && d.bufs[id] == c.bufs[id].(mode := d.bufs[id].mode)
  {}

  /** The status of an earlier write that a flush waits for. */
  ghost function Waited(b: Buffer, noWait: bool, io: Io, id: Id): (e: bool) {
    if !noWait && b.dirty && b.writing then io.earlier(id) else b.writeError
  }

  /** Of the buffers written, each once, only the outcome of an earlier write changes. */
  lemma {:induction false} WriteEachWhere(s: Client, ids: seq<Id>, noWait: bool, io: Io, id: Id)
    requires |s.marks| == |s.fate| && NoDup(ids) && id in s.c.bufs && forall i :: 0 <= i < |ids| ==> ids[i] in s.c.bufs
    ensures var b, b' := s.c.bufs[id], WriteEach(s, ids, noWait, io).c.bufs[id];
            ViewOf(b') == ViewOf(b).(writeError := if id in ids then Waited(b, noWait, io, id) else b.writeError)
    decreases |ids|
  {
    hide WriteDirty, Still;
    if ids != [] && !(noWait && s.c.bufs[ids[0]].writing) {
      var t := WriteDirty(s, ids[0], io.earlier(ids[0]));
      WriteDirtyView(s, ids[0], io.earlier(ids[0]), id);
      assert ids == [ids[0]] + ids[1..];
      assert ids[0] !in ids[1..];
      WriteEachWhere(t, ids[1..], noWait, io, id);
    }
  }

  lemma WriteDirtyView(s: Client, x: Id, status: bool, id: Id)
    requires x in s.c.bufs && |s.marks| == |s.fate| && id in s.c.bufs
    ensures var t := WriteDirty(s, x, status);
            && |t.marks| == |t.fate| && t.c.bufs.Keys == s.c.bufs.Keys
            && (x != id ==> t.c.bufs[id] == s.c.bufs[id])
            && (x == id ==> var b := s.c.bufs[id]; ViewOf(t.c.bufs[id]) == ViewOf(b).(writeError := if b.dirty && b.writing then status else b.writeError))
  {}

  lemma AsyncWhere(s: Client, noWait: bool, io: Io, id: Id)
    requires Sane(s, {})
    ensures Agree(s.c) && |s.marks| == |s.fate|
    ensures var w, w' := Where(s.c, id), Where(WriteAsync(s, noWait, io).c, id);
            w' == if w.Some? then Some(w.value.(writeError := Waited(s.c.bufs[id], noWait, io, id))) else None
  {
    hide Sane, Agree, NoDup, MoveAll, WriteEach, Cleaned;
    SaneParts(s, {});
    MoveCleanKeeps(s);
    MoveWhere(s, id);
    var t := MoveClean(s);
    AgreeParts(t.c);
    if id in t.c.bufs {
      WriteEachWhere(t, t.c.dirty.ring, noWait, io, id);
      if t.c.bufs[id].dirty { OnDirtyList(t, id); }
    }
  }

  lemma WatermarkWhere(s: Client, io: Io, id: Id)
    requires Sane(s, {})
    ensures Agree(s.c) && |s.marks| == |s.fate| && Where(CheckWatermark(s, io).c, id) == Where(s.c, id)
  {
    hide Sane, Agree, WriteAsync;
    SaneParts(s, {});
    AsyncWhere(s, true, io, id);
  }

  lemma GetWhere(c: Cache, block: Block, id: Id)
    requires Agree(c)
    ensures HashInRange(c) && (Lookup(c, block).Some? ==> Lookup(c, block).value in c.bufs)
    ensures var w := Where(c, id);
            && (CacheGet(c, block).1 == Some(id) <==> w.Some? && w.value.block == block)
            && Where(CacheGet(c, block).0, id) == if w.Some? && w.value.block == block then Some(w.value.(hold := w.value.hold + 1)) else w
  {
    hide Agree, Lookup, NoDup;
    AgreeParts(c);
    GetAgrees(c, block);
    LookupIsPlainMap(c, block, id);
  }

  /** No buffer is cached for the block. */
  ghost predicate Uncached(c: Cache, block: Block) { forall x :: Where(c, x).Some? ==> Where(c, x).value.block != block }

  lemma GetNone(c: Cache, block: Block)
    requires Agree(c)
    ensures HashInRange(c) && (Lookup(c, block).Some? ==> Lookup(c, block).value in c.bufs)
    ensures CacheGet(c, block).1.None? <==> Uncached(c, block)
  {
    hide Agree, Where, CacheGet, Lookup;
    GetHash(c, block);
    if CacheGet(c, block).1.Some? { GetWhere(c, block, CacheGet(c, block).1.value); }
    forall x: Id | Where(c, x).Some? && Where(c, x).value.block == block
      ensures CacheGet(c, block).1 == Some(x)
    {
      GetWhere(c, block, x);
    }
  }

  lemma GetHash(c: Cache, block: Block)
    requires Agree(c)
    ensures HashInRange(c) && (Lookup(c, block).Some? ==> Lookup(c, block).value in c.bufs)
  {
    hide Agree, Lookup;
    AgreeParts(c);
    GetAgrees(c, block);
  }

  /** A caller found the block in this buffer. */
  ghost function Held(w: Option<View>, block: Block, nf: Flag): (r: Option<View>) {
    if w.Some? && w.value.block == block && !(nf == Prefetch || (nf == Get && w.value.reading)) then Some(w.value.(hold := w.value.hold + 1)) else w
  }

  /** Giving up the hold just taken, or keeping it. */
  lemma FoundWhere(s: Client, x: Id, nf: Flag, id: Id)
    requires x in s.c.bufs && s.c.bufs[x].hold > 0 && Listed(s.c, x)
    ensures var w, up := Where(s.c, id), !(nf == Prefetch || (nf == Get && s.c.bufs[x].reading));
            && Where(Found(s, x, nf).0.c, id) == (if id == x && !up then Some(w.value.(hold := w.value.hold - 1)) else w)
            && Found(s, x, nf).1 == if up then Some(x) else None
  {}

  lemma FastWhere(s: Client, block: Block, nf: Flag, id: Id)
    requires Sane(s, {})
    ensures HashInRange(s.c) && (Lookup(s.c, block).Some? ==> Lookup(s.c, block).value in s.c.bufs)
    ensures Where(FastPath(s, block, nf).0.c, id) == Held(Where(s.c, id), block, nf)
    ensures FastPath(s, block, nf).1 == Some(id) <==> Held(Where(s.c, id), block, nf) != Where(s.c, id)
  {
    hide Sane, Agree, Lookup, Found, CacheGet, Listed;
    SaneParts(s, {});
    GetHash(s.c, block);
    GetWhere(s.c, block, id);
    var (d, x) := CacheGet(s.c, block);
    if x.Some? {
      GetWhere(s.c, block, x.value);
      FoundWhere(s.(c := d), x.value, nf, id);
    }
  }

  lemma TakeOutWhere(s: Client, m: Mode, pred: Id -> Verdict, io: Io, id: Id)
    requires Sane(s, {})
    ensures HashInRange(s.c) && |s.marks| == |s.fate|
    ensures var (t, x) := TakeOut(s, m, pred, io);
            && Where(t.c, id) == (if x == Some(id) then None else Where(s.c, id))
            && (x == Some(id) ==> Where(s.c, id).Some? && Where(s.c, id).value.hold == 0 && id in ListOf(s.c, m).ring && pred(id) == Evict)
  {
    hide Sane, Agree, CacheEvict, MakeClean;
    SaneParts(s, {});
    EvictAgrees(s.c, m, pred);
    AgreeParts(s.c);
    var (d, x) := CacheEvict(s.c, m, pred);
    if x.Some? {
      if id in d.bufs && x.value != id { MakeCleanOnly(s.(c := d, hand := s.hand + {x.value}), x.value, io, id); }
    }
  }

  lemma UnclaimedWhere(s: Client, io: Io, id: Id)
    requires Sane(s, {})
    ensures HashInRange(s.c) && |s.marks| == |s.fate|
    ensures var (t, x) := GetUnclaimed(s, io);
            && Where(t.c, id) == (if x == Some(id) then None else Where(s.c, id))
            && (x == Some(id) ==> Where(s.c, id).Some? && Where(s.c, id).value.hold == 0)
  {
    hide Sane, Agree, TakeOut, Where, IsClean, IsDirty;
    TakeOutWhere(s, Clean, IsClean(s.c.bufs, s.noSleep), io, id);
    TakeOutKeeps(s, Clean, IsClean(s.c.bufs, s.noSleep), io);
    var t := TakeOut(s, Clean, IsClean(s.c.bufs, s.noSleep), io).0;
    TakeOutWhere(t, Dirty, IsDirty(t.c.bufs), io, id);
  }

  /** The pass has to take a cached buffer, if any. */
  ghost predicate Starved(s: Client, given: Option<Id>, nf: Flag) { given.None? && nf != Prefetch && s.reserved == [] }

  lemma AllocWhere(s: Client, given: Option<Id>, nf: Flag, io: Io, id: Id)
    requires Sane(s, {}) && (given.Some? ==> given.value !in s.c.bufs)
    ensures HashInRange(s.c) && |s.marks| == |s.fate|
    ensures var (t, x) := AllocBuffer(s, given, nf, io);
            && Where(t.c, id) == (if x == Some(id) && Starved(s, given, nf) then None else Where(s.c, id))
            && (x == Some(id) ==> (Starved(s, given, nf) <==> Where(s.c, id).Some?) && (Where(s.c, id).Some? ==> Where(s.c, id).value.hold == 0))
  {
    hide Sane, Agree, GetUnclaimed;
    SaneParts(s, {});
    AgreeParts(s.c);
    UnclaimedWhere(s, io, id);
    if s.reserved != [] { ReserveUncached(s, s.reserved[0]); }
  }

  lemma ReserveUncached(s: Client, id: Id)
    requires Sane(s, {}) && id in s.reserved
    ensures !Listed(s.c, id)
  {
    hide Agree, Bits, Marks, Logs;
  }

  lemma InsertWhere(c: Cache, x: Id, id: Id)
    requires x in c.bufs && c.hash(c.bufs[x].block) < |c.trees| && Lookup(c, c.bufs[x].block).None?
    ensures Where(CacheInsert(c, x).0, id) == if id == x then Some(ViewOf(c.bufs[x])) else Where(c, id)
  {}

  lemma EnterWhere(s: Client, x: Id, block: Block, nf: Flag, io: Io, id: Id)
    requires Sane(s, {}) && x in s.hand
    ensures Agree(s.c) && |s.marks| == |s.fate| && x in s.c.bufs && !Listed(s.c, x)
    ensures !Uncached(s.c, block) ==> Where(Enter(s, x, block, nf, io).0.c, id) == Held(Where(s.c, id), block, nf)
    ensures !Uncached(s.c, block) ==> (Enter(s, x, block, nf, io).1 == Some(id) <==> Held(Where(s.c, id), block, nf) != Where(s.c, id))
    ensures Uncached(s.c, block) ==> Enter(s, x, block, nf, io).1 == Some(x)
    ensures Uncached(s.c, block) ==>
              Where(Enter(s, x, block, nf, io).0.c, id) == if id == x then Some(View(block, 1, nf != Fresh, false, false)) else Where(s.c, id)
  {
    hide Sane, Agree, Lookup, Free, CheckWatermark, CacheInsert, Uncached;
    SaneParts(s, {});
    HandIn(s, x);
    GetNone(s.c, block);
    if Uncached(s.c, block) { EnterNew(s, x, block, nf, io, id); } else { EnterFound(s, x, block, nf, io, id); }
  }

  lemma EnterFound(s: Client, x: Id, block: Block, nf: Flag, io: Io, id: Id)
    requires Sane(s, {}) && Agree(s.c) && |s.marks| == |s.fate| && x in s.c.bufs && !Listed(s.c, x) && !Uncached(s.c, block)
    ensures Where(Enter(s, x, block, nf, io).0.c, id) == Held(Where(s.c, id), block, nf)
    ensures Enter(s, x, block, nf, io).1 == Some(id) <==> Held(Where(s.c, id), block, nf) != Where(s.c, id)
  {
    hide Sane, Agree, Lookup, Free, CheckWatermark, CacheInsert, Uncached, Found, CacheGet, Listed;
    GetNone(s.c, block);
    GetIs(s.c, block, x);
    GetWhere(s.c, block, id);
    var (d, y) := CacheGet(s.c, block);
    GetWhere(s.c, block, y.value);
    GetUnlisted(s.c, block, x);
    FreeWhere(s.(c := d), x, id);
    FreeWhere(s.(c := d), x, y.value);
    FreeLeaves(s.(c := d), x, y.value);
    FoundWhere(Free(s.(c := d), x), y.value, nf, id);
  }

  lemma GetUnlisted(c: Cache, block: Block, x: Id)
    requires c.hash(block) < |c.trees| && (Lookup(c, block).Some? ==> Lookup(c, block).value in c.bufs) && x in c.bufs && !Listed(c, x)
    ensures x in CacheGet(c, block).0.bufs && !Listed(CacheGet(c, block).0, x)
  {
    hide Lookup;
  }

  lemma EnterNew(s: Client, x: Id, block: Block, nf: Flag, io: Io, id: Id)
    requires Sane(s, {}) && Agree(s.c) && |s.marks| == |s.fate| && x in s.c.bufs && !Listed(s.c, x) && Uncached(s.c, block)
    ensures Enter(s, x, block, nf, io).1 == Some(x)
    ensures Where(Enter(s, x, block, nf, io).0.c, id) == if id == x then Some(View(block, 1, nf != Fresh, false, false)) else Where(s.c, id)
  {
    hide Sane, Agree, Lookup, Free, CheckWatermark, CacheInsert, Uncached;
    GetNone(s.c, block);
    WatermarkKeeps(s, io);
    WatermarkWhere(s, io, id);
    WatermarkWhere(s, io, x);
    var t := CheckWatermark(s, io);
    var u := WithBuffer(t, x, Prepared(t.c.bufs[x], block, nf));
    SameTrees(s.c, u.c, block);
    InsertWhere(u.c, x, id);
  }

  lemma SameTrees(c: Cache, d: Cache, block: Block)
    requires d.hash == c.hash && d.trees == c.trees && c.hash(block) < |c.trees|
    ensures Lookup(d, block) == Lookup(c, block)
  {}

  lemma RemoveOrPutWhere(s: Client, x: Id, unwanted: bool, id: Id)
    requires Agree(s.c) && Listed(s.c, x) && x in s.c.bufs && s.c.bufs[x].hold > 0
    ensures s.c.hash(s.c.bufs[x].block) < |s.c.trees| && x in ListOf(s.c, s.c.bufs[x].mode).ring
    ensures var w := Where(s.c, id);
            Where(RemoveOrPut(s, x, unwanted).c, id) ==
            if id != x then w else if unwanted && w.value.hold == 1 then None else Some(w.value.(hold := w.value.hold - 1))
  {
    hide Agree, Unlink, Free, PutHold, Where;
    AgreeParts(s.c);
    UnlinkAgrees(s.c, x);
    UnlinkBufs(s.c, x);
    UnlinkWhere(s.c, x, id);
    PutWhere(s, x, id);
    if unwanted && s.c.bufs[x].hold == 1 { FreeWhere(Removed(s, x), x, id); }
  }

  lemma PutWhere(s: Client, x: Id, id: Id)
    requires Listed(s.c, x) && x in s.c.bufs && s.c.bufs[x].hold > 0
    ensures Where(s.c, x) == Some(ViewOf(s.c.bufs[x]))
    ensures Where(PutHold(s, x).c, id) == if id == x then Some(ViewOf(s.c.bufs[x]).(hold := s.c.bufs[x].hold - 1)) else Where(s.c, id)
  {}

  lemma UnlinkWhere(c: Cache, x: Id, id: Id)
    requires Agree(c) && Listed(c, x) && x in c.bufs && c.hash(c.bufs[x].block) < |c.trees| && x in ListOf(c, c.bufs[x].mode).ring
    ensures Where(Unlink(c, x), id) == if id == x then None else Where(c, id)
  {
    hide Agree, Unlink;
    UnlinkAgrees(c, x);
    UnlinkBufs(c, x);
  }

  lemma ReleaseWhere(s: Client, x: Id, id: Id)
    requires Sane(s, {}) && Listed(s.c, x) && x in s.c.bufs && s.c.bufs[x].hold > 0
    ensures s.c.hash(s.c.bufs[x].block) < |s.c.trees| && x in ListOf(s.c, s.c.bufs[x].mode).ring
    ensures var w, b := Where(s.c, id), s.c.bufs[x];
            Where(ReleaseBuffer(s, x).c, id) ==
            if id != x then w else if Quiet(b) && (b.readError || b.writeError) && b.hold == 1 then None else Some(w.value.(hold := w.value.hold - 1))
  {
    hide Sane, Agree, RemoveOrPut;
    SaneParts(s, {});
    RemoveOrPutWhere(s, x, (s.c.bufs[x].readError || s.c.bufs[x].writeError) && Quiet(s.c.bufs[x]), id);
  }

  lemma ForgetWhere(s: Client, block: Block, id: Id)
    requires Sane(s, {})
    ensures HashInRange(s.c)
    ensures Lookup(s.c, block).Some? ==>
              var x := Lookup(s.c, block).value;
              x in s.c.bufs && s.c.bufs[x].block == block && x in ListOf(s.c, s.c.bufs[x].mode).ring
    ensures var w := Where(s.c, id);
            Where(ForgetBlock(s, block).c, id) == if w.Some? && w.value.block == block && w.value.hold == 0 && Quiet(s.c.bufs[id]) then None else w
  {
    hide Sane, Agree, Lookup, RemoveOrPut;
    SaneParts(s, {});
    ForgetKeeps(s, block);
    GetAgrees(s.c, block);
    GetWhere(s.c, block, id);
    var (d, x) := CacheGet(s.c, block);
    if x.Some? {
      LookupIsPlainMap(s.c, block, x.value);
      RemoveOrPutWhere(s.(c := d), x.value, Quiet(d.bufs[x.value]), id);
    }
  }

  lemma {:induction false} FreeAllWhere(s: Client, out: seq<Id>, id: Id)
    requires forall x :: x in out ==> !Listed(s.c, x)
    ensures Where(FreeAll(s, out).c, id) == Where(s.c, id)
    decreases |out|
  {
    hide Free, Where;
    if out != [] && out[0] in s.c.bufs {
      FreeWhere(s, out[0], id);
      FreeUnlisted(s, out[0]);
      FreeAllWhere(Free(s, out[0]), out[1..], id);
    }
  }

  lemma FreeUnlisted(s: Client, x: Id)
    requires x in s.c.bufs
    ensures forall y :: Listed(Free(s, x).c, y) <==> Listed(s.c, y)
  {}

  lemma ForgetRangeWhere(s: Client, d: Cache, out: seq<Id>, begin: Block, end: Block, id: Id)
    requires Dropped(s.c, d, out, begin, end, Idle(s.c.bufs)) && forall x :: InRange(s.c, x, begin, end, Idle(s.c.bufs)) ==> x in out
    ensures var w := Where(s.c, id);
            Where(ForgetAll(s, d, out).c, id) ==
            if w.Some? && begin <= w.value.block < end && w.value.hold == 0 && Quiet(s.c.bufs[id]) then None else w
  {
    hide NoDup, UnlinkAll, FreeAll;
    FreeAllWhere(s.(c := d, hand := s.hand + Elements(out)), out, id);
    if id in out { assert InRange(s.c, id, begin, end, Idle(s.c.bufs)); }
  }

  lemma ReclaimWhere(s: Client, m: Mode, pred: Id -> Verdict, io: Io, id: Id)
    requires Sane(s, {})
    ensures HashInRange(s.c) && |s.marks| == |s.fate|
    ensures var x := TakeOut(s, m, pred, io).1;
            && Where(ReclaimOne(s, m, pred, io).c, id) == (if x == Some(id) then None else Where(s.c, id))
            && (x == Some(id) ==> Where(s.c, id).Some? && Where(s.c, id).value.hold == 0 && id in ListOf(s.c, m).ring && pred(id) == Evict)
  {
    hide Sane, Agree, TakeOut, Free;
    TakeOutWhere(s, m, pred, io, id);
    TakeOutKeeps(s, m, pred, io);
    var (t, x) := TakeOut(s, m, pred, io);
    if x.Some? {
      HandIn(t, x.value);
      FreeWhere(t, x.value, id);
    }
  }

  lemma MarkWhere(c: Cache, x: Id, m: Mode, id: Id)
    requires Agree(c) && Listed(c, x) && x in c.bufs
    ensures x in ListOf(c, c.bufs[x].mode).ring && Where(CacheMark(c, x, m), id) == Where(c, id)
  {
    hide Agree, Remove;
    MarkAgrees(c, x, m);
    MarkedFields(c, x, m, id);
  }

  lemma MarkedFields(c: Cache, x: Id, m: Mode, id: Id)
    requires x in c.bufs && x in ListOf(c, c.bufs[x].mode).ring
    ensures id in CacheMark(c, x, m).bufs <==> id in c.bufs
    ensures id in c.bufs ==> CacheMark(c, x, m).bufs[id] == c.bufs[id].(mode := CacheMark(c, x, m).bufs[id].mode)
  {
    hide Remove;
  }

  lemma MarkDirtyWhere(s: Client, x: Id, start: nat, end: nat, id: Id)
    requires Sane(s, {}) && Listed(s.c, x) && x in s.c.bufs
    ensures x in ListOf(s.c, s.c.bufs[x].mode).ring && Where(MarkDirty(s, x, start, end).c, id) == Where(s.c, id)
  {
    hide Sane, Agree, CacheMark;
    SaneParts(s, {});
    var b := s.c.bufs[x];
    MarkWhere(s.c, x, Dirty, id);
    if !b.dirty {
      var d := s.c.(bufs := s.c.bufs[x := b.(dirty := true, dirtyStart := start, dirtyEnd := end)]);
      FieldsAgree(s.c, d, x);
      MarkWhere(d, x, Dirty, id);
    }
  }

  lemma SettledWhere(s: Client, x: Id, id: Id)
    requires Sane(s, {}) && Listed(s.c, x) && x in s.c.bufs && s.c.bufs[x].hold > 0
    ensures x in ListOf(s.c, s.c.bufs[x].mode).ring
    ensures var w := Where(s.c, id);
            Where(Settled(s, x).c, id) == if id == x then Some(w.value.(hold := w.value.hold - 1)) else w
  {
    hide Sane, Agree, CacheMark;
    SaneParts(s, {});
    MarkWhere(s.c, x, Clean, id);
    MarkWhere(s.c, x, Clean, x);
  }

  /* ---------- each call ---------- */

  /** How the number of holders changes with a call. */
  ghost function Change(s: Client, e: Bufio.Event, id: Id): (n: int)
    requires id in s.c.bufs
  {
    var b := s.c.bufs[id];
    match e
    case Fast(block, nf) => if b.block == block && !(nf == Prefetch || (nf == Get && b.reading)) then 1 else 0
    case Use(_, block, nf, _) => if b.block == block && !(nf == Prefetch || (nf == Get && b.reading)) then 1 else 0
    case Hold(x) => if x == id then 1 else 0
    case Release(x) => if x == id then -1 else 0
    case Settle(x) => if x == id then -1 else 0
    case _ => 0
  }

  /** What a cached buffer is after the call, if it is still cached. */
  ghost function Onward(s: Client, e: Bufio.Event, id: Id): (v: View)
    requires id in s.c.bufs
  {
    var v := ViewOf(s.c.bufs[id]);
    match e
    case ReadDone(x, status) => if x == id then v.(reading := false, readError := status) else v
    case WriteDone(x, status) => if x == id then v.(writeError := status) else v
    case Flush(noWait, io) => v.(writeError := Waited(s.c.bufs[id], noWait, io, id))
    case _ => v.(hold := v.hold + Change(s, e, id))
  }

  /** The buffer must leave the cache: given back for good after a failure, or forgotten. */
  ghost predicate MustGo(s: Client, e: Bufio.Event, id: Id)
    requires id in s.c.bufs
  {
    var b := s.c.bufs[id];
    Quiet(b) &&
    match e
    case Release(x) => x == id && b.hold == 1 && (b.readError || b.writeError)
    case Forget(block) => b.block == block && b.hold == 0
    case ForgetRange(begin, end, _, _) => begin <= b.block < end && b.hold == 0
    case _ => false
  }

  /** The buffer may be taken for another block, or reclaimed. */
  ghost predicate MayGo(s: Client, e: Bufio.Event, id: Id)
    requires id in s.c.bufs
  {
    s.c.bufs[id].hold == 0 &&
    match e
    case Alloc(given, nf, _) => Starved(s, given, nf)
    case Reclaim(m, pred, _) => id in ListOf(s.c, m).ring && pred(id) == Evict
    case _ => false
  }

  /** The buffer is entered for a block that is not cached. */
  ghost predicate Enters(s: Client, e: Bufio.Event, id: Id) { e.Use? && e.id == id && Uncached(s.c, e.block) }

  /** After the call: a buffer that was cached is what it should be, and gone only if it must or
      may go; one that was not is cached only if it was entered, held once, and to be read unless
      it is fresh. */
  ghost predicate AsExpected(s: Client, e: Bufio.Event, t: Client, id: Id) {
    var w, w' := Where(s.c, id), Where(t.c, id);
    if w.None? then w' == if Enters(s, e, id) then Some(View(e.block, 1, e.nf != Fresh, false, false)) else None
    else if MustGo(s, e, id) then w'.None?
    else w' == Some(Onward(s, e, id)) || (w'.None? && MayGo(s, e, id))
  }

  lemma NewWhere(s: Client, e: Bufio.Event, id: Id)
    requires Sane(s, {}) && Allowed(s, e) && (e.Fast? || e.Alloc? || e.Use?)
    ensures AsExpected(s, e, NewStep(s, e), id)
  {
    hide Sane, Agree, FastPath, AllocBuffer, Enter, Lookup, Listed, Uncached;
    SaneParts(s, {});
    match e
    case Fast(b, nf) => FastWhere(s, b, nf, id);
    case Alloc(given, nf, io) => AllocWhere(s, given, nf, io, id);
    case Use(x, b, nf, io) =>
      EnterWhere(s, x, b, nf, io, id);
      if Where(s.c, id).Some? && Where(s.c, id).value.block == b { HereCached(s.c, b, id); }
  }

  lemma HereCached(c: Cache, block: Block, id: Id)
    requires Where(c, id).Some? && Where(c, id).value.block == block
    ensures !Uncached(c, block)
  {
    hide Where;
  }

  lemma GiveBackWhere(s: Client, e: Bufio.Event, id: Id)
    requires Sane(s, {}) && Allowed(s, e) && (e.Release? || e.Forget?)
    ensures AsExpected(s, e, FreeStep(s, e), id)
  {
    hide Sane, Agree, ReleaseBuffer, ForgetBlock, Lookup, Listed, Quiet;
    SaneParts(s, {});
    match e
    case Release(x) => ReleaseWhere(s, x, id);
    case Forget(b) => ForgetWhere(s, b, id);
  }

  lemma FreeStepWhere(s: Client, e: Bufio.Event, id: Id)
    requires Sane(s, {}) && Allowed(s, e) && (e.ForgetRange? || e.Reclaim?)
    ensures AsExpected(s, e, FreeStep(s, e), id)
  {
    hide Sane, Agree, ForgetAll, ReclaimOne, Lookup, Listed, Dropped, Quiet;
    SaneParts(s, {});
    match e
    case ForgetRange(begin, end, d, out) => ForgetRangeWhere(s, d, out, begin, end, id);
    case Reclaim(m, pred, io) => ReclaimWhere(s, m, pred, io, id);
  }

  lemma WriteStepWhere(s: Client, e: Bufio.Event, id: Id)
    requires Sane(s, {}) && Allowed(s, e) && (e.MarkPartial? || e.Flush? || e.Watermark? || e.Settle?)
    ensures AsExpected(s, e, WriteStep(s, e), id)
  {
    hide Sane, Agree, MarkDirty, WriteAsync, CheckWatermark, Settled, Listed;
    SaneParts(s, {});
    match e
    case MarkPartial(x, start, end) => MarkDirtyWhere(s, x, start, end, id);
    case Flush(noWait, io) => AsyncWhere(s, noWait, io, id);
    case Watermark(io) => WatermarkWhere(s, io, id);
    case Settle(x) => SettledWhere(s, x, id);
  }

  /** Every call does to each buffer what a plain cache of blocks would do. */
  lemma StepWhere(s: Client, e: Bufio.Event, id: Id)
    requires Sane(s, {}) && Allowed(s, e)
    ensures AsExpected(s, e, Bufio.Step(s, e), id)
  {
    hide Sane, NewStep, FreeStep, WriteStep, AsExpected;
    match e
    case Fast(_, _) | Alloc(_, _, _) | Use(_, _, _, _) => NewWhere(s, e, id);
    case Release(_) | Forget(_) => GiveBackWhere(s, e, id);
    case ForgetRange(_, _, _, _) | Reclaim(_, _, _) => FreeStepWhere(s, e, id);
    case MarkPartial(_, _, _) | Flush(_, _) | Watermark(_) | Settle(_) => WriteStepWhere(s, e, id);
    case _ => BitsWhere(s, e, id);
  }

  lemma BitsWhere(s: Client, e: Bufio.Event, id: Id)
    requires Sane(s, {}) && Allowed(s, e) && (e.ReadDone? || e.WriteDone? || e.Hold?)
    ensures AsExpected(s, e, Bufio.Step(s, e), id)
  {
    hide Sane;
  }

  /** A call that may take buffers takes one at most. */
  lemma TakesOne(s: Client, e: Bufio.Event, i: Id, j: Id)
    requires Sane(s, {}) && Allowed(s, e) && (e.Alloc? || e.Reclaim?)
    requires Where(s.c, i).Some? && Where(Bufio.Step(s, e).c, i).None? && Where(s.c, j).Some? && Where(Bufio.Step(s, e).c, j).None?
    ensures i == j
  {
    hide Sane, Where, AllocBuffer, ReclaimOne, TakeOut;
    match e
    case Alloc(given, nf, io) =>
      AllocWhere(s, given, nf, io, i);
      AllocWhere(s, given, nf, io, j);
    case Reclaim(m, pred, io) =>
      ReclaimWhere(s, m, pred, io, i);
      ReclaimWhere(s, m, pred, io, j);
  }

  /** While it has a holder, a buffer stays cached under its block, and the number of holders
      changes by the holders' own calls only. */
  lemma HeldStays(s: Client, e: Bufio.Event, id: Id)
    requires Sane(s, {}) && Allowed(s, e) && Listed(s.c, id) && id in s.c.bufs
    requires s.c.bufs[id].hold > 0 && s.c.bufs[id].hold + Change(s, e, id) > 0
    ensures Where(Bufio.Step(s, e).c, id) == Some(Onward(s, e, id))
    ensures Onward(s, e, id).block == s.c.bufs[id].block && Onward(s, e, id).hold == s.c.bufs[id].hold + Change(s, e, id)
  {
    hide Sane, Allowed, Bufio.Step;
    StepWhere(s, e, id);
  }

  /** In every run, a buffer somebody holds and has not given back is still cached under its
      block. */
  lemma {:induction false} HeldInEveryRun(s: Client, es: seq<Bufio.Event>, t: Client, id: Id)
    requires Sane(s, {}) && Bufio.Reaches(s, es, t) && Listed(s.c, id) && id in s.c.bufs && s.c.bufs[id].hold > 0
    requires forall i :: 0 <= i < |es| ==> es[i] != Release(id) && es[i] != Bufio.Settle(id)
    ensures Listed(t.c, id) && id in t.c.bufs && t.c.bufs[id].block == s.c.bufs[id].block && t.c.bufs[id].hold >= s.c.bufs[id].hold
    decreases |es|
  {
    hide Sane, Allowed, Bufio.Step, Listed;
    if es != [] {
      assert Bufio.Goes(s, es, t);
      assert es[0] != Release(id) && es[0] != Bufio.Settle(id);
      HeldStays(s, es[0], id);
      SaneStep(s, es[0]);
      HeldInEveryRun(Bufio.Step(s, es[0]), es[1..], t, id);
    }
  }

  /** A release leaves the buffer cached under its block with one hold less. Only from the last
      holder of a failed buffer with nothing under way does it take the buffer: the block is then
      cached no more. */
  lemma ReleaseLeaves(s: Client, id: Id)
    requires Sane(s, {}) && Allowed(s, Release(id))
    ensures var b, t := s.c.bufs[id], Bufio.Step(s, Release(id));
            && HashInRange(t.c)
            && if b.hold == 1 && Quiet(b) && (b.readError || b.writeError) then !Listed(t.c, id) && Lookup(t.c, b.block).None?
               else Lookup(t.c, b.block) == Some(id) && Where(t.c, id) == Some(ViewOf(b).(hold := b.hold - 1))
  {
    hide Sane, Bufio.Step, Agree, Lookup;
    StepWhere(s, Release(id), id);
    SaneStep(s, Release(id));
    var t, block := Bufio.Step(s, Release(id)), s.c.bufs[id].block;
    SaneParts(s, {});
    SaneParts(t, {});
    AgreeParts(t.c);
    LookupIsPlainMap(t.c, block, id);
    if Lookup(t.c, block).Some? {
      var x := Lookup(t.c, block).value;
      LookupIsPlainMap(t.c, block, x);
      StepWhere(s, Release(id), x);
      if Listed(s.c, x) { BlocksUnique(s.c, x, id); }
    }
  }

  /* ---------- what the buffers hold ---------- */

  /** What is known of the contents of a buffer: to be read yet, good, or not to be relied on
      because the read failed; and whether the last write failed. */
  datatype Load = Loading | Good | Bad
  datatype Tale = Tale(load: Load, writeFailed: bool)

  /** What somebody knows who sees the calls and the completions only. A flush that waits for an
      earlier write learns its outcome. */
  ghost function Watch(l: map<Id, Tale>, s: Client, e: Bufio.Event): (r: map<Id, Tale>) {
    match e
    case Use(id, block, nf, _) => if Uncached(s.c, block) then l[id := Tale(if nf == Fresh then Good else Loading, false)] else l
    case ReadDone(id, status) => if id in l then l[id := l[id].(load := if status then Bad else Good)] else l
    case WriteDone(id, status) => if id in l then l[id := l[id].(writeFailed := status)] else l
    case Flush(noWait, io) =>
      map id | id in l :: l[id].(writeFailed := if id in s.c.bufs && !noWait && s.c.bufs[id].dirty && s.c.bufs[id].writing then io.earlier(id) else l[id].writeFailed)
    case _ => l
  }

  ghost function WatchRun(l: map<Id, Tale>, s: Client, es: seq<Bufio.Event>): (r: map<Id, Tale>)
    requires Sane(s, {})
    decreases |es|
  {
    if es == [] || !Allowed(s, es[0]) then l
    else
      SaneStep(s, es[0]);
      WatchRun(Watch(l, s, es[0]), Bufio.Step(s, es[0]), es[1..])
  }

  ghost predicate Fits(v: View, l: Tale) {
    && (v.reading <==> l.load == Loading) && (!v.reading ==> (v.readError <==> l.load == Bad)) && (v.writeError <==> l.writeFailed)
  }

  ghost predicate Known(c: Cache, l: map<Id, Tale>) { forall id :: Where(c, id).Some? ==> id in l && Fits(Where(c, id).value, l[id]) }

  lemma KnownStep(s: Client, e: Bufio.Event, l: map<Id, Tale>)
    requires Sane(s, {}) && Allowed(s, e) && Known(s.c, l)
    ensures Known(Bufio.Step(s, e).c, Watch(l, s, e))
  {
    hide Sane, Allowed, Bufio.Step, Listed, Uncached;
    forall id | Where(Bufio.Step(s, e).c, id).Some?
      ensures id in Watch(l, s, e) && Fits(Where(Bufio.Step(s, e).c, id).value, Watch(l, s, e)[id])
    {
      StepWhere(s, e, id);
      if e.Use? && e.id == id { UsedUncached(s, e); }
    }
  }

  lemma UsedUncached(s: Client, e: Bufio.Event)
    requires Sane(s, {}) && Allowed(s, e) && e.Use?
    ensures Where(s.c, e.id).None?
  {
    hide Sane;
    HandIn(s, e.id);
  }

  /** In every run: a cached buffer is being read exactly if it was entered other than fresh and no
      read has completed since; otherwise its read error is set exactly if that read failed; and its
      write error exactly if its last write did. */
  lemma {:induction false} ContentsKnown(s: Client, es: seq<Bufio.Event>, t: Client, l: map<Id, Tale>)
    requires Sane(s, {}) && Bufio.Reaches(s, es, t) && Known(s.c, l)
    ensures Known(t.c, WatchRun(l, s, es))
    decreases |es|
  {
    hide Sane, Allowed, Bufio.Step, Known, Watch;
    if es != [] {
      assert Bufio.Goes(s, es, t);
      SaneStep(s, es[0]);
      KnownStep(s, es[0], l);
      ContentsKnown(Bufio.Step(s, es[0]), es[1..], t, Watch(l, s, es[0]));
    }
  }

  /** A client just created has nothing to know. */
  lemma NothingKnown(s: Client)
    requires Created(s)
    ensures Known(s.c, map[])
  {
    hide Agree;
  }

  /** The call does not ask for the block to go, and reports no failure of the buffer. */
  ghost predicate Spares(e: Bufio.Event, id: Id, block: Block) {
    match e
    case Alloc(given, nf, _) => given.Some? || nf == Prefetch
    case Reclaim(_, _, _) => false
    case Forget(b) => b != block
    case ForgetRange(begin, end, _, _) => !(begin <= block < end)
    case ReadDone(x, status) => x == id ==> !status
    case WriteDone(x, status) => x == id ==> !status
    case Flush(noWait, io) => noWait || !io.earlier(id)
    case _ => true
  }

  /** In every run a buffer that has not failed stays cached under its block, held or not, until a
      call takes it for another block, reclaims it or forgets it. */
  lemma {:induction false} StaysCached(s: Client, es: seq<Bufio.Event>, t: Client, id: Id, block: Block)
    requires Sane(s, {}) && Bufio.Reaches(s, es, t) && forall i :: 0 <= i < |es| ==> Spares(es[i], id, block)
    requires var w := Where(s.c, id); w.Some? && w.value.block == block && !w.value.readError && !w.value.writeError
    ensures var w := Where(t.c, id); w.Some? && w.value.block == block && !w.value.readError && !w.value.writeError
    decreases |es|
  {
    hide Sane, Allowed, Bufio.Step, Listed;
    if es != [] {
      assert Bufio.Goes(s, es, t);
      assert Spares(es[0], id, block);
      StepWhere(s, es[0], id);
      SaneStep(s, es[0]);
      StaysCached(Bufio.Step(s, es[0]), es[1..], t, id, block);
    }
  }

  /* ---------- getting a buffer ---------- */

  /** The allocator's buffer is used if it gives one; a prefetch makes do with that; anybody else
      gets one from the reserve, and only if that is empty is one taken out of the cache. */
  lemma AllocYields(s: Client, given: Option<Id>, nf: Flag, io: Io)
    requires Sane(s, {}) && (given.Some? ==> given.value !in s.c.bufs)
    ensures HashInRange(s.c) && |s.marks| == |s.fate|
    ensures var (t, x) := AllocBuffer(s, given, nf, io);
            && (x.Some? ==> x.value in t.hand && !Listed(t.c, x.value))
            && (given.Some? ==> x == given) && (given.None? && nf == Prefetch ==> x.None?)
            && (given.None? && nf != Prefetch && s.reserved != [] ==>
                  x.Some? && x.value in s.reserved && |t.reserved| == |s.reserved| - 1 && x.value !in t.reserved)
            && (x.None? || !Starved(s, given, nf) ==> forall id :: Where(t.c, id) == Where(s.c, id))
            && (Starved(s, given, nf) && x.Some? ==> Where(s.c, x.value).Some? && Where(s.c, x.value).value.hold == 0)
  {
    hide Sane, Agree, GetUnclaimed, Where, Listed;
    SaneParts(s, {});
    AllocKeeps(s, given, nf, io);
    var (t, x) := AllocBuffer(s, given, nf, io);
    forall id: Id
      ensures Where(t.c, id) == (if x == Some(id) && Starved(s, given, nf) then None else Where(s.c, id))
    {
      AllocWhere(s, given, nf, io, id);
    }
    if x.Some? {
      HandIn(t, x.value);
      AllocWhere(s, given, nf, io, x.value);
    }
    if s.reserved != [] { ReserveOnce(s); }
  }

  lemma ReserveOnce(s: Client)
    requires Sane(s, {}) && s.reserved != []
    ensures s.reserved[0] !in s.reserved[1..]
  {
    hide Agree, Bits, Marks, Logs, Places;
  }

  /** With a reserve to its name and nothing held or in hand, a client that may sleep always gets a
      buffer, whatever the allocator does. */
  lemma AllocSucceeds(s: Client, given: Option<Id>, nf: Flag, io: Io)
    requires Sane(s, {}) && Unheld(s.c) && s.hand == {} && !s.noSleep && s.requested > 0 && nf != Prefetch
    ensures HashInRange(s.c) && |s.marks| == |s.fate| && AllocBuffer(s, given, nf, io).1.Some?
  {
    hide Sane, Agree, GetUnclaimed, Unheld;
    SaneParts(s, {});
    if given.None? && s.reserved == [] && GetUnclaimed(s, io).1.None? {
      UnclaimedFinds(s, io);
      UnclaimedNone(s, io);
      AllDropped(s);
    }
  }

  lemma UnclaimedNone(s: Client, io: Io)
    requires Sane(s, {})
    ensures HashInRange(s.c) && |s.marks| == |s.fate|
    ensures GetUnclaimed(s, io).1.None? && GetUnclaimed(s, io).0.c.clean.ring == [] && GetUnclaimed(s, io).0.c.dirty.ring == [] ==>
              s.c.clean.ring == [] && s.c.dirty.ring == []
  {
    hide Sane, Agree, GetUnclaimed;
    SaneParts(s, {});
    AgreeParts(s.c);
    var t := GetUnclaimed(s, io).0;
    forall id
      ensures GetUnclaimed(s, io).1.None? ==> Where(t.c, id) == Where(s.c, id)
    {
      UnclaimedWhere(s, io, id);
    }
    if s.c.clean.ring != [] { assert Where(s.c, s.c.clean.ring[0]).Some?; }
    if s.c.dirty.ring != [] { assert Where(s.c, s.c.dirty.ring[0]).Some?; }
  }

  /** A buffer is taken from the dirty list, and written, only if the clean list offers none: with an
      unheld one there that no search has to pass over, it is the clean list that gives, and nothing
      is written. */
  lemma CleanFirst(s: Client, io: Io, z: Id)
    requires Sane(s, {}) && z in s.c.clean.ring && z !in s.c.clean.referenced
    requires z in s.c.bufs && s.c.bufs[z].hold == 0 && !(s.noSleep && s.c.bufs[z].reading)
    ensures HashInRange(s.c) && |s.marks| == |s.fate|
    ensures var (t, x) := GetUnclaimed(s, io);
            x.Some? && x.value in s.c.clean.ring && x.value !in s.c.clean.referenced && t.submitted == s.submitted
  {
    hide Sane, Agree, CacheEvict, EvictSpec, NoDup, Pos;
    SaneParts(s, {});
    AgreeParts(s.c);
    CleanBits(s, z);
    var pred := IsClean(s.c.bufs, s.noSleep);
    SecondChance(s.c.clean, Guarded(s.c.bufs, pred), z);
    EvictGives(s.c, pred);
    var (d, x) := CacheEvict(s.c, Clean, pred);
    CleanBits(s, x.value);
  }

  lemma EvictGives(c: Cache, pred: Id -> Verdict)
    requires Agree(c) && EvictSpec(c.clean, Guarded(c.bufs, pred)).1.Some? && EvictSpec(c.clean, Guarded(c.bufs, pred)).1.value in c.clean.ring
    ensures HashInRange(c) && CacheEvict(c, Clean, pred).1 == EvictSpec(c.clean, Guarded(c.bufs, pred)).1
  {
    hide EvictSpec, NoDup, Sharded, Lookup;
  }

  /** Writing starts when there are more than three times as many buffers on the dirty list as on the
      clean one, and not before; unless it meets a write already under way, nothing is then left
      dirty. */
  lemma WatermarkIff(s: Client, io: Io)
    requires Sane(s, {})
    ensures Agree(s.c) && |s.marks| == |s.fate|
    ensures |s.c.dirty.ring| <= 3 * |s.c.clean.ring| ==> CheckWatermark(s, io) == s
    ensures |s.c.dirty.ring| > 3 * |s.c.clean.ring| && (forall id :: id in s.c.bufs ==> !s.c.bufs[id].writing) ==>
              NoneDirty(CheckWatermark(s, io).c)
  {
    hide Sane, Agree, NoDup, MoveAll, WriteEach, Cleaned, WriteAsync;
    SaneParts(s, {});
    AsyncNoneDirty(s, io);
    if forall id :: id in s.c.bufs ==> !s.c.bufs[id].writing { NoWaitNeeded(s, io); }
  }

  lemma NoWaitNeeded(s: Client, io: Io)
    requires Sane(s, {}) && forall id :: id in s.c.bufs ==> !s.c.bufs[id].writing
    ensures Agree(s.c) && |s.marks| == |s.fate| && WriteAsync(s, true, io) == WriteAsync(s, false, io)
  {
    hide Sane, Agree, NoDup, MoveAll, WriteEach, Cleaned;
    SaneParts(s, {});
    MoveCleanKeeps(s);
    var t := MoveClean(s);
    AgreeParts(t.c);
    forall id | id in t.c.bufs
      ensures !t.c.bufs[id].writing
    {
      assert id in s.c.bufs by { assert t.c.bufs.Keys == s.c.bufs.Keys; }
      MoveWhere(s, id);
    }
    NoneWaits(t, t.c.dirty.ring, io);
  }

  lemma {:induction false} NoneWaits(s: Client, ids: seq<Id>, io: Io)
    requires |s.marks| == |s.fate| && NoDup(ids) && forall i :: 0 <= i < |ids| ==> ids[i] in s.c.bufs && !s.c.bufs[ids[i]].writing
    ensures WriteEach(s, ids, true, io) == WriteEach(s, ids, false, io)
    decreases |ids|
  {
    hide WriteDirty, Still;
    if ids != [] {
      var t := WriteDirty(s, ids[0], io.earlier(ids[0]));
      WriteDirtyView(s, ids[0], io.earlier(ids[0]), ids[0]);
      forall i | 0 <= i < |ids[1..]|
        ensures ids[1..][i] in t.c.bufs && !t.c.bufs[ids[1..][i]].writing
      {
        assert ids[1..][i] == ids[i + 1] != ids[0];
        WriteDirtyView(s, ids[0], io.earlier(ids[0]), ids[i + 1]);
      }
      NoneWaits(t, ids[1..], io);
    }
  }

  /** Where it may not wait, a pass over the buffers writes what is dirty up to the first one that is
      being written already, and nothing from there on. */
  lemma {:induction false} StopsAtWrite(s: Client, ids: seq<Id>, io: Io, i: nat)
    requires |s.marks| == |s.fate| && NoDup(ids) && (forall j :: 0 <= j < |ids| ==> ids[j] in s.c.bufs)
    requires i < |ids| && s.c.bufs[ids[i]].writing && forall j :: 0 <= j < i ==> !s.c.bufs[ids[j]].writing
    ensures var t := WriteEach(s, ids, true, io);
            && (forall j :: 0 <= j < i ==> !t.c.bufs[ids[j]].dirty) && (forall j :: i <= j < |ids| ==> t.c.bufs[ids[j]] == s.c.bufs[ids[j]])
            && forall x :: x in s.c.bufs && x !in ids ==> t.c.bufs[x] == s.c.bufs[x]
    decreases i
  {
    hide WriteDirty, Still;
    if i > 0 {
      var t, rest := WriteDirty(s, ids[0], io.earlier(ids[0])), ids[1..];
      WrittenClean(s, ids[0], io.earlier(ids[0]));
      WriteDirtyView(s, ids[0], io.earlier(ids[0]), ids[0]);
      forall x | x in s.c.bufs
        ensures x in t.c.bufs && (x != ids[0] ==> t.c.bufs[x] == s.c.bufs[x])
      {
        WriteDirtyView(s, ids[0], io.earlier(ids[0]), x);
      }
      assert forall j :: 0 <= j < |rest| ==> rest[j] == ids[j + 1];
      StopsAtWrite(t, rest, io, i - 1);
      assert ids[0] !in rest;
      forall j | 0 < j < |ids|
        ensures ids[j] == rest[j - 1]
      {}
    }
  }

  lemma WrittenClean(s: Client, id: Id, status: bool)
    requires id in s.c.bufs && |s.marks| == |s.fate|
    ensures id in WriteDirty(s, id, status).c.bufs && !WriteDirty(s, id, status).c.bufs[id].dirty
  {}

  /** Reclaiming takes a buffer whenever the list has an unheld one that will do and was not hit
      since the last search, and then not one that was. */
  lemma ReclaimFinds(s: Client, m: Mode, pred: Id -> Verdict, io: Io, z: Id) returns (x: Id)
    requires Sane(s, {}) && z in ListOf(s.c, m).ring && z !in ListOf(s.c, m).referenced
    requires z in s.c.bufs && s.c.bufs[z].hold == 0 && pred(z) == Evict && forall y :: pred(y) != Stop
    ensures x in ListOf(s.c, m).ring && x !in ListOf(s.c, m).referenced && Where(s.c, x).Some?
    ensures HashInRange(s.c) && |s.marks| == |s.fate| && Where(ReclaimOne(s, m, pred, io).c, x).None?
  {
    hide Sane, Agree, CacheEvict, MakeClean, ReclaimOne;
    SaneParts(s, {});
    AgreeParts(s.c);
    HitOutlives(s.c, m, pred, z);
    x := CacheEvict(s.c, m, pred).1.value;
    ReclaimWhere(s, m, pred, io, x);
  }
}
