/** The dm-bufio client of md/dm-bufio.c: buffer state bits, dirty ranges, write submission
    and the pool of reserved buffers.

    A public call is one step, and so is the completion of an I/O. Where a call waits for a
    bit, the completion it waits for happens within the call, with a status the caller does
    not choose. */
module Bufio {
  import opened Collections
  import opened Lru
  import opened BufferCache

  const WRITE_ALIGN := 4096
  const SECTOR := 512
  const WRITEBACK_RATIO := 3
  const WORD := 0x1_0000_0000
  const NO_BLOCK: Block := 0xFFFF_FFFF_FFFF_FFFF

  /* ---------- the byte range of a write ---------- */

  function Down(n: nat): (r: nat)
    ensures r <= n < r + WRITE_ALIGN && r % SECTOR == 0
  {
    assert n / WRITE_ALIGN * WRITE_ALIGN == n / WRITE_ALIGN * 8 * SECTOR;
    n / WRITE_ALIGN * WRITE_ALIGN
  }

  /** submit_io on 32-bit words: the first byte and the number of bytes handed to the device. */
  function SubmitRange(start: nat, end: nat, blockSize: nat): (r: (nat, nat)) {
    var up := Down((end + WRITE_ALIGN - 1) % WORD);
    var stop := if up > blockSize then blockSize else up;
    (Down(start), (stop - Down(start)) % WORD / SECTOR * SECTOR)
  }

  /** The range lies within the block and covers the bytes from start to end. */
  predicate InBlock(r: (nat, nat), start: nat, end: nat, blockSize: nat) {
    r.0 <= start && end <= r.0 + r.1 <= blockSize
  }

  /** It does so exactly when rounding the end up does not wrap, and then takes in less than 4 KiB
      more at either end. */
  lemma SubmitCoversIff(start: nat, end: nat, blockSize: nat)
    requires start < end <= blockSize < 0x1_0000_0000 && blockSize % 512 == 0
    ensures InBlock(SubmitRange(start, end, blockSize), start, end, blockSize) <==> end + 4095 < 0x1_0000_0000
    ensures end + 4095 < 0x1_0000_0000 ==>
              var (from, n) := SubmitRange(start, end, blockSize); start < from + 4096 && from + n < end + 4096
  {
    hide Down;
    var up := Down((end + WRITE_ALIGN - 1) % WORD);
    if end + WRITE_ALIGN - 1 < WORD {
      Sectors(if up > blockSize then blockSize else up, Down(start));
    } else {
      DownSmall((end + WRITE_ALIGN - 1) % WORD);
      if Down(start) > 0 { Sectors(WORD, Down(start)); }
    }
  }

  /** In a block just short of 4 GiB, writing the whole block submits nothing at all, and writing
      its last sectors runs past its end. */
  lemma SubmitWraps()
    ensures SubmitRange(0, WORD - 512, WORD - 512) == (0, 0)
    ensures SubmitRange(WORD - 4096, WORD - 512, WORD - 512) == (WORD - 4096, 4096)
  {
    assert Down(0) == 0 && Down((WORD - 512 + WRITE_ALIGN - 1) % WORD) == 0 && Down(WORD - 4096) == WORD - 4096;
  }

  /** Whole sectors are counted exactly. */
  lemma Sectors(stop: nat, offset: nat)
    requires offset <= stop <= WORD && stop - offset < WORD && stop % SECTOR == 0 && offset % SECTOR == 0
    ensures (stop - offset) % WORD / SECTOR * SECTOR == stop - offset
    ensures stop == WORD ==> (0 - offset) % WORD == stop - offset
  {
    WordSmall(stop - offset);
    var n := stop / SECTOR - offset / SECTOR;
    assert stop - offset == n * SECTOR;
    assert n * SECTOR / SECTOR == n;
    if stop == WORD { WordNegative(offset); }
  }

  lemma WordSmall(n: nat)
    requires n < WORD
    ensures n % WORD == n
  {}

  lemma WordNegative(n: nat)
    requires 0 < n <= WORD
    ensures (0 - n) % WORD == WORD - n
  {
    assert 0 - n == -1 * WORD + (WORD - n);
  }

  lemma DownSmall(n: nat)
    requires n < WRITE_ALIGN
    ensures Down(n) == 0
  {}

  /* ---------- the client ---------- */

  /** One call to dm_bufio_mark_partial_buffer_dirty, and where its bytes have gone since. */
  datatype Mark = Mark(id: Id, block: Block, start: nat, end: nat)
  datatype Fate = Owed | Sent(write: nat)

  datatype Submission = Submission(id: Id, block: Block, start: nat, end: nat)

  /** struct dm_bufio_client, and as history the marks, the writes submitted and the buffers
      passed to __free_buffer_wake. hand holds the buffers taken for use and not yet cached. */
  datatype Client = Client(c: Cache, blockSize: nat, noSleep: bool, requested: nat,
                           reserved: seq<Id>, need: nat, hand: set<Id>,
                           marks: seq<Mark>, fate: seq<Fate>, submitted: seq<Submission>, freed: seq<Buffer>)

  /** What completions report: of a read, of a write already under way, of the write just
      submitted. */
  datatype Io = Io(read: bool, earlier: Id -> bool, last: bool)

  datatype Flag = Fresh | Read | Get | Prefetch

  /** Only fields of buffers and the history of writes changed. */
  ghost predicate Still(s: Client, t: Client) {
    && t.c == s.c.(bufs := t.c.bufs) && t.c.bufs.Keys == s.c.bufs.Keys && t.hand == s.hand
    && t.reserved == s.reserved && |t.fate| == |s.fate| && t.marks == s.marks && t.noSleep == s.noSleep
  }

  predicate Quiet(b: Buffer) { !b.reading && !b.writing && !b.dirty }

  function WithBuffer(s: Client, id: Id, b: Buffer): (r: Client) { s.(c := s.c.(bufs := s.c.bufs[id := b])) }

  /** read_endio. */
  function ReadEnd(s: Client, id: Id, status: bool): (r: Client)
    requires id in s.c.bufs
  {
    WithBuffer(s, id, s.c.bufs[id].(reading := false, readError := status))
  }

  /** write_endio. */
  function WriteEnd(s: Client, id: Id, status: bool): (r: Client)
    requires id in s.c.bufs
  {
    WithBuffer(s, id, s.c.bufs[id].(writing := false, writeError := status))
  }

  /** What was owed by the buffer is in write n now. */
  function SendAll(marks: seq<Mark>, fate: seq<Fate>, id: Id, n: nat): (r: seq<Fate>)
    requires |marks| == |fate|
    ensures |r| == |fate|
  {
    seq(|fate|, i requires 0 <= i < |fate| => if fate[i] == Owed && marks[i].id == id then Sent(n) else fate[i])
  }

  /** __write_dirty_buffer: an earlier write is waited for first. */
  function WriteDirty(s: Client, id: Id, status: bool): (r: Client)
    requires id in s.c.bufs && |s.marks| == |s.fate|
    ensures Still(s, r)
  {
    var b := s.c.bufs[id];
    if !b.dirty then s
    else
      var b' := b.(dirty := false, writing := true, writeStart := b.dirtyStart, writeEnd := b.dirtyEnd,
                   writeError := if b.writing then status else b.writeError);
      WithBuffer(s, id, b').(fate := SendAll(s.marks, s.fate, id, |s.submitted|),
                             submitted := s.submitted + [Submission(id, b'.block, b'.writeStart, b'.writeEnd)])
  }

  /** __make_buffer_clean. */
  function MakeClean(s: Client, id: Id, io: Io): (r: Client)
    requires id in s.c.bufs && |s.marks| == |s.fate|
    ensures Still(s, r)
  {
    if Quiet(s.c.bufs[id]) then s
    else
      var s1 := if s.c.bufs[id].reading then ReadEnd(s, id, io.read) else s;
      var s2 := WriteDirty(s1, id, io.earlier(id));
      if s2.c.bufs[id].writing then WriteEnd(s2, id, io.last) else s2
  }

  /** __free_buffer_wake: the reserve is filled first. */
  function Free(s: Client, id: Id): (r: Client)
    requires id in s.c.bufs
  {
    var b := s.c.bufs[id].(block := NO_BLOCK);
    var t := s.(hand := s.hand - {id}, freed := s.freed + [b]);
    if s.need == 0 then t.(c := s.c.(bufs := s.c.bufs - {id}))
    else WithBuffer(t, id, b).(reserved := [id] + s.reserved, need := s.need - 1)
  }

  /* ---------- eviction predicates ---------- */

  function IsClean(bufs: map<Id, Buffer>, noSleep: bool): (p: Id -> Verdict) {
    (id: Id) =>
      if id !in bufs || bufs[id].writing || bufs[id].dirty || bufs[id].mode != Clean then DontEvict
      else if noSleep && bufs[id].reading then DontEvict
      else Evict
  }

  function IsDirty(bufs: map<Id, Buffer>): (p: Id -> Verdict) {
    (id: Id) => if id !in bufs || bufs[id].reading || bufs[id].mode != Dirty then DontEvict else Evict
  }

  function Cleaned(bufs: map<Id, Buffer>): (p: Id -> Verdict) {
    (id: Id) => if id !in bufs || bufs[id].reading || bufs[id].dirty || bufs[id].writing then DontEvict else Evict
  }

  function Idle(bufs: map<Id, Buffer>): (p: Id -> Verdict) {
    (id: Id) => if id in bufs && Quiet(bufs[id]) then Evict else DontEvict
  }

  /* ---------- the calls ---------- */

  /** A buffer is evicted, waited for and cleaned, and is then in hand. */
  ghost function TakeOut(s: Client, m: Mode, pred: Id -> Verdict, io: Io): (r: (Client, Option<Id>))
    requires HashInRange(s.c) && |s.marks| == |s.fate|
    ensures HashInRange(r.0.c) && |r.0.marks| == |r.0.fate| && (r.1.Some? ==> r.1.value in r.0.c.bufs)
  {
    var (d, x) := CacheEvict(s.c, m, pred);
    if x.Some? then (MakeClean(s.(c := d, hand := s.hand + {x.value}), x.value, io), x)
    else (s.(c := d), None)
  }

  /** __get_unclaimed_buffer. */
  ghost function GetUnclaimed(s: Client, io: Io): (r: (Client, Option<Id>))
    requires HashInRange(s.c) && |s.marks| == |s.fate|
  {
    var (t, x) := TakeOut(s, Clean, IsClean(s.c.bufs, s.noSleep), io);
    if x.Some? || s.noSleep then (t, x)
    else TakeOut(t, Dirty, IsDirty(t.c.bufs), io)
  }

  const BLANK := Buffer(NO_BLOCK, 0, Clean, false, false, false, 0, 0, 0, 0, false, false)

  /** One pass of __alloc_buffer_wait_no_callback; given is what the allocator gives, if it
      does. Without a result the caller waits and tries again. */
  ghost function AllocBuffer(s: Client, given: Option<Id>, nf: Flag, io: Io): (r: (Client, Option<Id>))
    requires HashInRange(s.c) && |s.marks| == |s.fate|
  {
    if given.Some? then (WithBuffer(s, given.value, BLANK).(hand := s.hand + {given.value}), given)
    else if nf == Prefetch then (s, None)
    else if s.reserved != [] then
      (s.(reserved := s.reserved[1..], need := s.need + 1, hand := s.hand + {s.reserved[0]}), Some(s.reserved[0]))
    else GetUnclaimed(s, io)
  }

  /** write_one over the buffers in turn. */
  function WriteEach(s: Client, ids: seq<Id>, noWait: bool, io: Io): (r: Client)
    requires |s.marks| == |s.fate| && forall i :: 0 <= i < |ids| ==> ids[i] in s.c.bufs
    ensures Still(s, r)
    decreases |ids|
  {
    if ids == [] || (noWait && s.c.bufs[ids[0]].writing) then s
    else WriteEach(WriteDirty(s, ids[0], io.earlier(ids[0])), ids[1..], noWait, io)
  }

  /** __move_clean_buffers. */
  ghost function MoveClean(s: Client): (r: Client)
    requires Agree(s.c)
  {
    s.(c := MoveAll(s.c, Dirty, Clean, Cleaned(s.c.bufs)))
  }

  /** __write_dirty_buffers_async. */
  ghost function WriteAsync(s: Client, noWait: bool, io: Io): (r: Client)
    requires Agree(s.c) && |s.marks| == |s.fate|
    ensures r.c.hash == s.c.hash && r.c.trees == s.c.trees && r.c.bufs.Keys == s.c.bufs.Keys && r.noSleep == s.noSleep
  {
    var t := MoveClean(s);
    AgreeParts(t.c);
    WriteEach(t, t.c.dirty.ring, noWait, io)
  }

  /** __check_watermark. */
  ghost function CheckWatermark(s: Client, io: Io): (r: Client)
    requires Agree(s.c) && |s.marks| == |s.fate|
    ensures r.c.hash == s.c.hash && r.c.trees == s.c.trees && r.c.bufs.Keys == s.c.bufs.Keys
  {
    if |s.c.dirty.ring| > |s.c.clean.ring| * WRITEBACK_RATIO then WriteAsync(s, true, io) else s
  }

  function PutHold(s: Client, id: Id): (r: Client)
    requires id in s.c.bufs && s.c.bufs[id].hold > 0
  {
    WithBuffer(s, id, s.c.bufs[id].(hold := s.c.bufs[id].hold - 1))
  }

  /** found_buffer: not every caller may keep the hold it just took. */
  function Found(s: Client, id: Id, nf: Flag): (r: (Client, Option<Id>))
    requires id in s.c.bufs && s.c.bufs[id].hold > 0
  {
    if nf == Prefetch || (nf == Get && s.c.bufs[id].reading) then (PutHold(s, id), None) else (s, Some(id))
  }

  /** The fast path of new_read. */
  function FastPath(s: Client, block: Block, nf: Flag): (r: (Client, Option<Id>))
    requires s.c.hash(block) < |s.c.trees| && (Lookup(s.c, block).Some? ==> Lookup(s.c, block).value in s.c.bufs)
  {
    var (d, x) := CacheGet(s.c, block);
    if x.None? then (s, None) else Found(s.(c := d), x.value, nf)
  }

  /** What __bufio_new makes of the buffer. */
  function Prepared(b: Buffer, block: Block, nf: Flag): (r: Buffer) {
    b.(hold := 1, block := block, readError := false, writeError := false, mode := Clean,
       reading := nf != Fresh, writing := false, dirty := false)
  }

  /** __bufio_new once it has its buffer: the block may have been cached meanwhile. */
  ghost function Enter(s: Client, id: Id, block: Block, nf: Flag, io: Io): (r: (Client, Option<Id>))
    requires Agree(s.c) && |s.marks| == |s.fate| && id in s.c.bufs && !Listed(s.c, id)
  {
    AgreeParts(s.c);
    GetAgrees(s.c, block);
    var (d, x) := CacheGet(s.c, block);
    if x.Some? then
      LookupIsPlainMap(s.c, block, x.value);
      Found(Free(s.(c := d), id), x.value, nf)
    else
      var t := CheckWatermark(s, io);
      var u := WithBuffer(t, id, Prepared(t.c.bufs[id], block, nf));
      (u.(c := CacheInsert(u.c, id).0, hand := u.hand - {id}), Some(id))
  }

  /** cache_remove by the only holder, to whom the buffer passes. */
  function Removed(s: Client, id: Id): (r: Client)
    requires id in s.c.bufs && s.c.hash(s.c.bufs[id].block) < |s.c.trees| && id in ListOf(s.c, s.c.bufs[id].mode).ring
  {
    s.(c := Unlink(s.c, id), hand := s.hand + {id})
  }

  /** A hold goes: the buffer with it, if it is no longer wanted and nobody else holds it. */
  function RemoveOrPut(s: Client, id: Id, unwanted: bool): (r: Client)
    requires id in s.c.bufs && s.c.bufs[id].hold > 0
    requires s.c.hash(s.c.bufs[id].block) < |s.c.trees| && id in ListOf(s.c, s.c.bufs[id].mode).ring
  {
    if unwanted && s.c.bufs[id].hold == 1 then Free(Removed(s, id), id) else PutHold(s, id)
  }

  /** dm_bufio_release. */
  function ReleaseBuffer(s: Client, id: Id): (r: Client)
    requires id in s.c.bufs && s.c.bufs[id].hold > 0
    requires s.c.hash(s.c.bufs[id].block) < |s.c.trees| && id in ListOf(s.c, s.c.bufs[id].mode).ring
  {
    var b := s.c.bufs[id];
    RemoveOrPut(s, id, (b.readError || b.writeError) && Quiet(b))
  }

  /** dm_bufio_mark_partial_buffer_dirty. */
  function MarkDirty(s: Client, id: Id, start: nat, end: nat): (r: Client)
    requires id in s.c.bufs && id in ListOf(s.c, s.c.bufs[id].mode).ring
  {
    var b := s.c.bufs[id];
    var t := s.(marks := s.marks + [Mark(id, b.block, start, end)], fate := s.fate + [Owed]);
    if !b.dirty then
      var u := WithBuffer(t, id, b.(dirty := true, dirtyStart := start, dirtyEnd := end));
      u.(c := CacheMark(u.c, id, Dirty))
    else
      WithBuffer(t, id, b.(dirtyStart := if start < b.dirtyStart then start else b.dirtyStart,
                           dirtyEnd := if end > b.dirtyEnd then end else b.dirtyEnd))
  }

  /** One buffer of dm_bufio_write_dirty_buffers, once its write was waited for. */
  function Settled(s: Client, id: Id): (r: Client)
    requires id in s.c.bufs && s.c.bufs[id].hold > 0 && id in ListOf(s.c, s.c.bufs[id].mode).ring
  {
    var b := s.c.bufs[id];
    PutHold(if !b.dirty && !b.writing then s.(c := CacheMark(s.c, id, Clean)) else s, id)
  }

  /** forget_buffer: only a quiet buffer nobody else holds. */
  function ForgetBlock(s: Client, block: Block): (r: Client)
    requires s.c.hash(block) < |s.c.trees|
    requires Lookup(s.c, block).Some? ==>
               var id := Lookup(s.c, block).value;
               id in s.c.bufs && s.c.bufs[id].block == block && id in ListOf(s.c, s.c.bufs[id].mode).ring
  {
    var (d, x) := CacheGet(s.c, block);
    if x.None? then s
    else
      RemoveOrPut(s.(c := d), x.value, Quiet(d.bufs[x.value]))
  }

  function FreeAll(s: Client, out: seq<Id>): (r: Client)
    decreases |out|
  {
    if out == [] || out[0] !in s.c.bufs then s else FreeAll(Free(s, out[0]), out[1..])
  }

  /** dm_bufio_forget_buffers, where d is the cache without the buffers of out. */
  ghost function ForgetAll(s: Client, d: Cache, out: seq<Id>): (r: Client) {
    FreeAll(s.(c := d, hand := s.hand + Elements(out)), out)
  }

  /* ---------- what every step keeps ---------- */

  ghost predicate RangeOk(b: Buffer, blockSize: nat) {
    && (b.dirty ==> b.dirtyStart < b.dirtyEnd <= blockSize)
    && (b.writing ==> b.writeStart < b.writeEnd <= blockSize)
  }

  /** State bits by list. Off the lists a buffer is quiet, unless it is being cleaned. */
  ghost predicate BitsOk(s: Client, id: Id, busy: set<Id>)
    requires id in s.c.bufs
  {
    var b := s.c.bufs[id];
    && RangeOk(b, s.blockSize)
    && (id in s.c.clean.ring ==> !b.dirty && !b.writing)
    && (id in s.c.dirty.ring ==> !b.reading)
    && (!Listed(s.c, id) && id !in busy ==> Quiet(b))
  }

  ghost predicate Bits(s: Client, busy: set<Id>) { forall id :: id in s.c.bufs ==> BitsOk(s, id, busy) }

  /** A mark is still owed by its dirty buffer, or went into a write to its block that covers it. */
  ghost predicate MarkOk(s: Client, m: Mark, f: Fate) {
    && m.start < m.end <= s.blockSize
    && match f
       case Owed =>
         && m.id in s.c.bufs && s.c.bufs[m.id].dirty && s.c.bufs[m.id].block == m.block
         && s.c.bufs[m.id].dirtyStart <= m.start && m.end <= s.c.bufs[m.id].dirtyEnd
       case Sent(j) =>
         j < |s.submitted| && s.submitted[j].block == m.block && s.submitted[j].start <= m.start && m.end <= s.submitted[j].end
  }

  ghost predicate Marks(s: Client) {
    |s.marks| == |s.fate| && forall i :: 0 <= i < |s.marks| ==> MarkOk(s, s.marks[i], s.fate[i])
  }

  ghost predicate Logs(s: Client) {
    && (forall j :: 0 <= j < |s.submitted| ==> s.submitted[j].start < s.submitted[j].end <= s.blockSize)
    && (forall j :: 0 <= j < |s.freed| ==> Quiet(s.freed[j]))
  }

  /** Every buffer is cached, in hand or in the reserve, and in only one of the three. */
  ghost predicate Places(s: Client) {
    && (forall id :: id in s.hand ==> id in s.c.bufs && !Listed(s.c, id))
    && (forall id :: id in s.reserved ==> id in s.c.bufs && !Listed(s.c, id) && id !in s.hand)
    && (forall id :: id in s.c.bufs ==> Listed(s.c, id) || id in s.hand || id in s.reserved)
  }

  ghost predicate Pool(s: Client) {
    NoDup(s.reserved) && |s.reserved| + s.need == s.requested && s.requested <= |s.c.bufs|
  }

  ghost predicate Sane(s: Client, busy: set<Id>) {
    Agree(s.c) && Places(s) && Pool(s) && Bits(s, busy) && Marks(s) && Logs(s)
  }

  /** The two differ at most in list and holders. */
  ghost predicate SameIo(b: Buffer, b': Buffer) { b' == b.(mode := b'.mode, hold := b'.hold) }

  /** Buffers move between the lists and the hand, or their holders change. */
  lemma Relisted(s: Client, t: Client, busy: set<Id>, busy': set<Id>)
    requires Sane(s, busy) && Agree(t.c) && t == s.(c := t.c, hand := t.hand)
    requires t.c.bufs.Keys == s.c.bufs.Keys && forall id :: id in s.c.bufs ==> SameIo(s.c.bufs[id], t.c.bufs[id])
    requires Places(t) && Bits(t, busy')
    ensures Sane(t, busy')
  {
    hide Agree, NoDup, Places, Bits;
    assert |t.c.bufs| == |t.c.bufs.Keys| == |s.c.bufs.Keys| == |s.c.bufs|;
    forall i | 0 <= i < |t.marks|
      ensures MarkOk(t, t.marks[i], t.fate[i])
    {
      assert MarkOk(s, s.marks[i], s.fate[i]);
    }
  }

  /** One buffer's bits change, and the marks and writes with them. */
  lemma Updated(s: Client, t: Client, busy: set<Id>, id: Id)
    requires Sane(s, busy) && id in s.c.bufs && id in t.c.bufs
    requires t == WithBuffer(s, id, t.c.bufs[id]).(marks := t.marks, fate := t.fate, submitted := t.submitted)
    requires t.c.bufs[id].block == s.c.bufs[id].block && t.c.bufs[id].mode == s.c.bufs[id].mode
    requires BitsOk(t, id, busy) && Marks(t) && Logs(t)
    ensures Sane(t, busy)
  {
    hide Agree, NoDup, Marks, Logs, RangeOk;
    FieldsAgree(s.c, t.c, id);
    assert t.c.bufs.Keys == s.c.bufs.Keys;
    assert |t.c.bufs| == |t.c.bufs.Keys| == |s.c.bufs.Keys| == |s.c.bufs|;
    forall x | x in t.c.bufs
      ensures BitsOk(t, x, busy)
    {
      assert BitsOk(s, x, busy);
    }
  }

  /** Marks do not see a change that leaves dirty bit, dirty range and block alone. */
  lemma MarksSame(s: Client, t: Client, id: Id)
    requires Marks(s) && id in s.c.bufs && id in t.c.bufs && t == WithBuffer(s, id, t.c.bufs[id])
    requires var b, b' := s.c.bufs[id], t.c.bufs[id];
             b'.block == b.block && b'.dirty == b.dirty && b'.dirtyStart == b.dirtyStart && b'.dirtyEnd == b.dirtyEnd
    ensures Marks(t)
  {
    forall i | 0 <= i < |t.marks|
      ensures MarkOk(t, t.marks[i], t.fate[i])
    {
      assert MarkOk(s, s.marks[i], s.fate[i]);
    }
  }

  lemma ReadEndKeeps(s: Client, id: Id, status: bool, busy: set<Id>)
    requires Sane(s, busy) && id in s.c.bufs
    ensures Sane(ReadEnd(s, id, status), busy) && Still(s, ReadEnd(s, id, status))
    ensures !ReadEnd(s, id, status).c.bufs[id].reading
  {
    hide Agree, NoDup, Marks, Places, Pool;
    var t := ReadEnd(s, id, status);
    assert BitsOk(s, id, busy);
    MarksSame(s, t, id);
    Updated(s, t, busy, id);
  }

  lemma WriteEndKeeps(s: Client, id: Id, status: bool, busy: set<Id>)
    requires Sane(s, busy) && id in s.c.bufs
    ensures Sane(WriteEnd(s, id, status), busy) && Still(s, WriteEnd(s, id, status))
    ensures var b, b' := s.c.bufs[id], WriteEnd(s, id, status).c.bufs[id];
            !b'.writing && b'.dirty == b.dirty && b'.reading == b.reading
  {
    hide Agree, NoDup, Marks, Places, Pool;
    var t := WriteEnd(s, id, status);
    assert BitsOk(s, id, busy);
    MarksSame(s, t, id);
    Updated(s, t, busy, id);
  }

  /** Capturing a write sends what the buffer owes. */
  lemma WriteDirtyMarks(s: Client, id: Id, status: bool)
    requires Marks(s) && id in s.c.bufs
    ensures Marks(WriteDirty(s, id, status))
  {
    var t := WriteDirty(s, id, status);
    forall i | 0 <= i < |t.marks|
      ensures MarkOk(t, t.marks[i], t.fate[i])
    {
      assert MarkOk(s, s.marks[i], s.fate[i]);
    }
  }

  lemma WriteDirtyKeeps(s: Client, id: Id, status: bool, busy: set<Id>)
    requires Sane(s, busy) && id in s.c.bufs && id !in s.c.clean.ring && (Listed(s.c, id) || id in busy)
    ensures Sane(WriteDirty(s, id, status), busy) && Still(s, WriteDirty(s, id, status))
    ensures var b, b' := s.c.bufs[id], WriteDirty(s, id, status).c.bufs[id];
            !b'.dirty && b'.reading == b.reading
  {
    hide Agree, NoDup, MarkOk, Places, Pool;
    var t := WriteDirty(s, id, status);
    assert BitsOk(s, id, busy);
    WriteDirtyMarks(s, id, status);
    if s.c.bufs[id].dirty { Updated(s, t, busy, id); }
  }

  /** A buffer off the lists comes out quiet. */
  lemma MakeCleanKeeps(s: Client, id: Id, io: Io)
    requires Sane(s, {id}) && id in s.c.bufs && !Listed(s.c, id)
    ensures Sane(MakeClean(s, id, io), {}) && Still(s, MakeClean(s, id, io))
  {
    hide Agree, NoDup, MarkOk, Places, Pool, BitsOk, Logs, ReadEnd, WriteDirty, WriteEnd;
    if !Quiet(s.c.bufs[id]) {
      ReadEndKeeps(s, id, io.read, {id});
      var s1 := if s.c.bufs[id].reading then ReadEnd(s, id, io.read) else s;
      WriteDirtyKeeps(s1, id, io.earlier(id), {id});
      WriteEndKeeps(WriteDirty(s1, id, io.earlier(id)), id, io.last, {id});
    }
    NoLongerBusy(MakeClean(s, id, io), id);
  }

  lemma NoLongerBusy(s: Client, id: Id)
    requires Bits(s, {id}) && id in s.c.bufs && Quiet(s.c.bufs[id])
    ensures Bits(s, {})
  {
    forall x | x in s.c.bufs
      ensures BitsOk(s, x, {})
    {
      assert BitsOk(s, x, {id});
    }
  }

  /** An evicted buffer is in hand, and may still have to be cleaned. */
  lemma EvictedKeeps(s: Client, m: Mode, pred: Id -> Verdict)
    requires Sane(s, {})
    ensures var (d, x) := CacheEvict(s.c, m, pred);
            if x.Some? then
              && Sane(s.(c := d, hand := s.hand + {x.value}), {x.value}) && !Listed(d, x.value)
              && x.value !in s.hand && Matches(s.c, m, pred, x.value) && x.value in d.bufs
            else Sane(s.(c := d), {})
  {
    hide Agree, NoDup, CacheEvict, Marks, Logs, Pool, Places, Bits;
    AgreeParts(s.c);
    EvictAgrees(s.c, m, pred);
    var (d, x) := CacheEvict(s.c, m, pred);
    var t := if x.Some? then s.(c := d, hand := s.hand + {x.value}) else s.(c := d);
    EvictedPlaces(s, d, x);
    Relisted(s, t, {}, if x.Some? then {x.value} else {});
  }

  lemma EvictedPlaces(s: Client, d: Cache, x: Option<Id>)
    requires Places(s) && Bits(s, {}) && SameButFor(s.c, d, x) && d.bufs == s.c.bufs
    requires x.Some? ==> x.value in d.bufs && Listed(s.c, x.value) && !Listed(d, x.value)
    ensures var t := if x.Some? then s.(c := d, hand := s.hand + {x.value}) else s.(c := d);
            Places(t) && Bits(t, if x.Some? then {x.value} else {})
    ensures x.Some? ==> x.value !in s.hand
  {
    hide RangeOk, Quiet;
    var t := if x.Some? then s.(c := d, hand := s.hand + {x.value}) else s.(c := d);
    forall id | id in t.c.bufs
      ensures BitsOk(t, id, if x.Some? then {x.value} else {})
    {
      assert BitsOk(s, id, {});
    }
  }

  lemma TakeOutKeeps(s: Client, m: Mode, pred: Id -> Verdict, io: Io)
    requires Sane(s, {})
    ensures var (t, x) := TakeOut(s, m, pred, io);
            && Sane(t, {})
            && (x.Some? ==> x.value in t.hand && x.value !in s.hand && Matches(s.c, m, pred, x.value))
            && (x.None? ==> t.hand == s.hand)
  {
    hide Agree, NoDup, CacheEvict, MarkOk, Logs, Pool, Places, Bits, MakeClean;
    AgreeParts(s.c);
    EvictedKeeps(s, m, pred);
    var (d, x) := CacheEvict(s.c, m, pred);
    if x.Some? { MakeCleanKeeps(s.(c := d, hand := s.hand + {x.value}), x.value, io); }
  }

  lemma GetUnclaimedKeeps(s: Client, io: Io)
    requires Sane(s, {})
    ensures var (t, x) := GetUnclaimed(s, io);
            && Sane(t, {})
            && (x.Some? ==> x.value in t.hand && x.value !in s.hand)
            && (x.None? ==> t.hand == s.hand)
  {
    hide Agree, NoDup, Places, Bits, MarkOk, Logs, Pool, TakeOut;
    AgreeParts(s.c);
    TakeOutKeeps(s, Clean, IsClean(s.c.bufs, s.noSleep), io);
    var t := TakeOut(s, Clean, IsClean(s.c.bufs, s.noSleep), io).0;
    AgreeParts(t.c);
    TakeOutKeeps(t, Dirty, IsDirty(t.c.bufs), io);
  }

  /** Buffers off the lists may come, go or change without the cache noticing. */
  lemma OffListAgrees(c: Cache, d: Cache)
    requires Agree(c) && d == c.(bufs := d.bufs)
    requires forall id :: Listed(c, id) ==> id in d.bufs && d.bufs[id] == c.bufs[id]
    ensures Agree(d)
  {
    hide NoDup, Sharded, Lookup;
    AgreeParts(c);
    SameLookup(c, d);
    forall b: Block | Lookup(c, b).Some?
      ensures Listed(c, Lookup(c, b).value)
    {
      assert Cached(c, Lookup(c, b).value);
    }
    forall id
      ensures Cached(d, id) <==> Listed(d, id)
    {
      assert Cached(c, id) <==> Listed(c, id);
    }
  }

  lemma SameLookup(c: Cache, d: Cache)
    requires HashInRange(c) && d.hash == c.hash && d.trees == c.trees
    ensures HashInRange(d) && (Sharded(c) ==> Sharded(d)) && forall b: Block :: Lookup(d, b) == Lookup(c, b)
  {}

  lemma {:induction false} NoDupFits(s: seq<Id>, ids: set<Id>)
    requires NoDup(s) && forall x :: x in s ==> x in ids
    ensures |s| <= |ids|
    decreases |s|
  {
    if s != [] {
      var n := |s| - 1;
      NoDupFits(s[..n], ids - {s[n]});
    }
  }

  /** Apart from one quiet buffer off the lists, nothing changed. */
  ghost predicate OffList(s: Client, t: Client, id: Id) {
    && t.c == s.c.(bufs := t.c.bufs) && t.blockSize == s.blockSize && !Listed(s.c, id)
    && t.marks == s.marks && t.fate == s.fate && t.submitted == s.submitted
    && (id in s.c.bufs ==> Quiet(s.c.bufs[id])) && (id in t.c.bufs ==> Quiet(t.c.bufs[id]))
    && (forall x :: x != id ==> (x in t.c.bufs <==> x in s.c.bufs))
    && (forall x :: x != id && x in s.c.bufs ==> t.c.bufs[x] == s.c.bufs[x])
  }

  lemma OffListKeeps(s: Client, t: Client, id: Id)
    requires OffList(s, t, id) && Agree(s.c) && Bits(s, {}) && Marks(s)
    ensures Agree(t.c) && Bits(t, {}) && Marks(t)
  {
    hide Agree, NoDup;
    AgreeParts(s.c);
    OffListAgrees(s.c, t.c);
    forall x | x in t.c.bufs
      ensures BitsOk(t, x, {})
    {
      if x != id { assert BitsOk(s, x, {}); }
    }
    forall i | 0 <= i < |t.marks|
      ensures MarkOk(t, t.marks[i], t.fate[i])
    {
      assert MarkOk(s, s.marks[i], s.fate[i]);
    }
  }

  /** The reserve is filled first, so it cannot fall short of what it is owed. */
  lemma FreeKeeps(s: Client, id: Id)
    requires Sane(s, {}) && id in s.hand
    ensures Sane(Free(s, id), {}) && OffList(s, Free(s, id), id) && Free(s, id).hand == s.hand - {id}
  {
    hide Agree, NoDup, Bits, Marks, Logs, Pool;
    var t := Free(s, id);
    assert Quiet(s.c.bufs[id]) by { QuietOff(s, id); }
    FreePlaces(s, id);
    FreePool(s, id);
    FreeLogs(s, id);
    hide Places, Listed;
    OffListKeeps(s, t, id);
  }

  lemma QuietOff(s: Client, id: Id)
    requires Bits(s, {}) && id in s.c.bufs && !Listed(s.c, id)
    ensures Quiet(s.c.bufs[id])
  {
    assert BitsOk(s, id, {});
  }

  lemma FreePlaces(s: Client, id: Id)
    requires Places(s) && id in s.hand
    ensures Places(Free(s, id))
  {}

  lemma FreeLogs(s: Client, id: Id)
    requires Logs(s) && id in s.c.bufs && Quiet(s.c.bufs[id])
    ensures Logs(Free(s, id))
  {}

  lemma FreePool(s: Client, id: Id)
    requires Places(s) && Pool(s) && id in s.hand
    ensures Pool(Free(s, id))
  {
    var t := Free(s, id);
    if s.need == 0 {
      assert t.c.bufs.Keys == s.c.bufs.Keys - {id};
      assert |t.c.bufs| == |t.c.bufs.Keys|;
      NoDupFits(s.reserved, t.c.bufs.Keys);
    } else {
      assert t.c.bufs.Keys == s.c.bufs.Keys;
      assert |t.c.bufs| == |t.c.bufs.Keys| == |s.c.bufs.Keys| == |s.c.bufs|;
    }
  }

  lemma BlankKeeps(s: Client, id: Id)
    requires Sane(s, {}) && id !in s.c.bufs
    ensures Sane(WithBuffer(s, id, BLANK).(hand := s.hand + {id}), {})
  {
    hide Agree, NoDup, Bits, MarkOk, Places;
    var t := WithBuffer(s, id, BLANK).(hand := s.hand + {id});
    BlankPlaces(s, id);
    OffListKeeps(s, t, id);
    assert t.c.bufs.Keys == s.c.bufs.Keys + {id};
    assert |t.c.bufs| == |t.c.bufs.Keys| == |s.c.bufs.Keys| + 1 == |s.c.bufs| + 1;
  }

  lemma BlankPlaces(s: Client, id: Id)
    requires Agree(s.c) && Places(s) && id !in s.c.bufs
    ensures Places(WithBuffer(s, id, BLANK).(hand := s.hand + {id})) && !Listed(s.c, id)
  {
    hide NoDup, Lookup, Sharded;
  }

  lemma ReserveKeeps(s: Client)
    requires Sane(s, {}) && s.reserved != []
    ensures Sane(s.(reserved := s.reserved[1..], need := s.need + 1, hand := s.hand + {s.reserved[0]}), {})
  {
    hide Agree, NoDup, Bits, Marks, Logs, Places, Listed;
    var t := s.(reserved := s.reserved[1..], need := s.need + 1, hand := s.hand + {s.reserved[0]});
    ReservePlaces(s);
    QuietOff(s, s.reserved[0]);
    OffListKeeps(s, t, s.reserved[0]);
    SameLogs(s, t);
  }

  lemma ReservePlaces(s: Client)
    requires Places(s) && NoDup(s.reserved) && s.reserved != []
    ensures Places(s.(reserved := s.reserved[1..], need := s.need + 1, hand := s.hand + {s.reserved[0]}))
    ensures NoDup(s.reserved[1..]) && s.reserved[0] in s.c.bufs && !Listed(s.c, s.reserved[0])
  {
    assert s.reserved == [s.reserved[0]] + s.reserved[1..];
    assert forall id :: id in s.reserved[1..] ==> id in s.reserved;
  }

  lemma AllocKeeps(s: Client, given: Option<Id>, nf: Flag, io: Io)
    requires Sane(s, {}) && (given.Some? ==> given.value !in s.c.bufs)
    ensures var (t, x) := AllocBuffer(s, given, nf, io);
            && Sane(t, {})
            && (x.Some? ==> x.value in t.hand && x.value !in s.hand)
            && (x.None? ==> t.hand == s.hand)
  {
    hide Agree, NoDup, Bits, MarkOk, Logs, Pool, GetUnclaimed;
    AgreeParts(s.c);
    if given.Some? { BlankKeeps(s, given.value); }
    else if s.reserved != [] { ReserveKeeps(s); }
    GetUnclaimedKeeps(s, io);
  }

  /** Moving cleaned buffers changes lists, not what is listed. */
  lemma MovedListed(c: Cache, d: Cache, id: Id)
    requires Agree(c) && Agree(d) && Moved(c, d, Dirty, Clean, Cleaned(c.bufs))
    ensures Listed(d, id) <==> Listed(c, id)
    ensures id in c.bufs ==> id in d.bufs && SameIo(c.bufs[id], d.bufs[id])
    ensures id in d.dirty.ring ==> id in c.dirty.ring
    ensures id in d.clean.ring ==> id in c.clean.ring || (id in c.bufs && Quiet(c.bufs[id]))
  {
    hide Agree, NoDup, Sharded, Lookup;
    AgreeParts(c);
    AgreeParts(d);
    SameLookup(c, d);
    if Listed(c, id) { LookupIsPlainMap(d, c.bufs[id].block, id); }
    if Listed(d, id) { LookupIsPlainMap(c, d.bufs[id].block, id); }
  }

  lemma MoveCleanKeeps(s: Client)
    requires Sane(s, {})
    ensures Sane(MoveClean(s), {}) && MoveClean(s).hand == s.hand
  {
    hide Agree, NoDup, MoveAll, Moved, Marks, Logs, Pool, RangeOk, Quiet, SameIo, Cleaned;
    var t := MoveClean(s);
    MovedNone(s.c, Dirty, Clean, Cleaned(s.c.bufs));
    MoveAllMoves(s.c, s.c, Dirty, Clean, Cleaned(s.c.bufs));
    forall id
      ensures Listed(t.c, id) <==> Listed(s.c, id)
      ensures id in t.c.bufs ==> BitsOk(t, id, {}) && SameIo(s.c.bufs[id], t.c.bufs[id])
    {
      MovedListed(s.c, t.c, id);
      if id in t.c.bufs {
        assert BitsOk(s, id, {});
        SameIoRange(s.c.bufs[id], t.c.bufs[id], s.blockSize);
      }
    }
    Relisted(s, t, {}, {});
  }

  lemma SameIoRange(b: Buffer, b': Buffer, blockSize: nat)
    requires SameIo(b, b') && RangeOk(b, blockSize)
    ensures RangeOk(b', blockSize) && b'.reading == b.reading && b'.writing == b.writing && b'.dirty == b.dirty
    ensures Quiet(b) <==> !b.reading && !b.writing && !b.dirty
    ensures Quiet(b') <==> Quiet(b)
  {}

  lemma {:induction false} WriteEachKeeps(s: Client, ids: seq<Id>, noWait: bool, io: Io)
    requires Sane(s, {}) && forall i :: 0 <= i < |ids| ==> ids[i] in s.c.bufs && ids[i] in s.c.dirty.ring
    ensures Sane(WriteEach(s, ids, noWait, io), {})
    decreases |ids|
  {
    hide Agree, NoDup, Places, Pool, Bits, MarkOk, Logs, WriteDirty;
    if ids != [] && !(noWait && s.c.bufs[ids[0]].writing) {
      LookupIsPlainMap(s.c, s.c.bufs[ids[0]].block, ids[0]);
      WriteDirtyKeeps(s, ids[0], io.earlier(ids[0]), {});
      WriteEachKeeps(WriteDirty(s, ids[0], io.earlier(ids[0])), ids[1..], noWait, io);
    }
  }

  lemma WriteAsyncKeeps(s: Client, noWait: bool, io: Io)
    requires Sane(s, {})
    ensures Sane(WriteAsync(s, noWait, io), {}) && WriteAsync(s, noWait, io).hand == s.hand
  {
    hide Agree, NoDup, Places, Pool, Bits, MarkOk, Logs, MoveClean;
    MoveCleanKeeps(s);
    AgreeParts(MoveClean(s).c);
    WriteEachKeeps(MoveClean(s), MoveClean(s).c.dirty.ring, noWait, io);
  }

  lemma HoldKeeps(s: Client, id: Id, n: nat)
    requires Sane(s, {}) && id in s.c.bufs
    ensures Sane(WithBuffer(s, id, s.c.bufs[id].(hold := n)), {})
  {
    hide Agree, NoDup, MarkOk, Places, Pool;
    var t := WithBuffer(s, id, s.c.bufs[id].(hold := n));
    assert BitsOk(s, id, {});
    MarksSame(s, t, id);
    Updated(s, t, {}, id);
  }

  /** The rings are the same and buffers differ in holders only. */
  lemma SameRings(s: Client, t: Client)
    requires Places(s) && Bits(s, {}) && t == s.(c := t.c)
    requires t.c.clean.ring == s.c.clean.ring && t.c.dirty.ring == s.c.dirty.ring && t.c.bufs.Keys == s.c.bufs.Keys
    requires forall id :: id in s.c.bufs ==> SameIo(s.c.bufs[id], t.c.bufs[id])
    ensures Places(t) && Bits(t, {})
  {
    hide RangeOk, Quiet, SameIo;
    forall id | id in t.c.bufs
      ensures BitsOk(t, id, {})
    {
      assert BitsOk(s, id, {});
      SameIoRange(s.c.bufs[id], t.c.bufs[id], s.blockSize);
    }
  }

  lemma GetKeeps(s: Client, block: Block)
    requires Sane(s, {})
    ensures HashInRange(s.c) && (Lookup(s.c, block).Some? ==> Lookup(s.c, block).value in s.c.bufs)
    ensures Sane(s.(c := CacheGet(s.c, block).0), {})
  {
    hide Agree, NoDup, Lookup, Marks, Logs, Pool, Places, Bits;
    AgreeParts(s.c);
    GetAgrees(s.c, block);
    var t := s.(c := CacheGet(s.c, block).0);
    SameRings(s, t);
    Relisted(s, t, {}, {});
  }

  lemma FoundKeeps(s: Client, id: Id, nf: Flag)
    requires Sane(s, {}) && id in s.c.bufs && s.c.bufs[id].hold > 0
    ensures Sane(Found(s, id, nf).0, {})
  {
    hide Sane;
    HoldKeeps(s, id, s.c.bufs[id].hold - 1);
  }

  lemma FastPathKeeps(s: Client, block: Block, nf: Flag)
    requires Sane(s, {})
    ensures HashInRange(s.c) && (Lookup(s.c, block).Some? ==> Lookup(s.c, block).value in s.c.bufs)
    ensures Sane(FastPath(s, block, nf).0, {})
  {
    hide Sane, Lookup;
    GetKeeps(s, block);
    var (d, x) := CacheGet(s.c, block);
    if x.Some? { FoundKeeps(s.(c := d), x.value, nf); }
  }

  /** A prepared buffer enters the cache. */
  lemma EnteredKeeps(s: Client, id: Id, block: Block, nf: Flag)
    requires Sane(s, {}) && id in s.hand && s.c.hash(block) < |s.c.trees| && Lookup(s.c, block).None?
    ensures id in s.c.bufs
    ensures var u := WithBuffer(s, id, Prepared(s.c.bufs[id], block, nf));
            Sane(u.(c := CacheInsert(u.c, id).0, hand := u.hand - {id}), {}) && CacheInsert(u.c, id).1
  {
    hide Agree, NoDup, Marks, Logs, Bits, Pool;
    AgreeParts(s.c);
    var u := WithBuffer(s, id, Prepared(s.c.bufs[id], block, nf));
    OffListAgrees(s.c, u.c);
    InsertAgrees(u.c, id);
    var t := u.(c := CacheInsert(u.c, id).0, hand := u.hand - {id});
    assert t.c.bufs.Keys == s.c.bufs.Keys;
    assert Pool(t) by { SameCount(s, t); }
    EnteredBits(s, t, id);
    EnteredMarks(s, t, id);
    assert Logs(t) by { SameLogs(s, t); }
  }

  lemma SameCount(s: Client, t: Client)
    requires Pool(s) && t.c.bufs.Keys == s.c.bufs.Keys && t.reserved == s.reserved && t.need == s.need && t.requested == s.requested
    ensures Pool(t)
  {
    assert |t.c.bufs| == |t.c.bufs.Keys| == |s.c.bufs.Keys| == |s.c.bufs|;
  }

  lemma SameLogs(s: Client, t: Client)
    requires Logs(s) && t.submitted == s.submitted && t.freed == s.freed && t.blockSize == s.blockSize
    ensures Logs(t)
  {}

  lemma EnteredBits(s: Client, t: Client, id: Id)
    requires Bits(s, {}) && id in s.c.bufs && id in t.c.bufs && t.blockSize == s.blockSize
    requires t.c.bufs == s.c.bufs[id := t.c.bufs[id]] && !t.c.bufs[id].dirty && !t.c.bufs[id].writing && id !in t.c.dirty.ring
    requires forall x :: x in t.c.clean.ring <==> x in s.c.clean.ring || x == id
    requires t.c.dirty == s.c.dirty
    ensures Bits(t, {})
  {
    forall x | x in t.c.bufs
      ensures BitsOk(t, x, {})
    {
      assert BitsOk(s, x, {});
    }
  }

  lemma EnteredMarks(s: Client, t: Client, id: Id)
    requires Marks(s) && Bits(s, {}) && id in s.c.bufs && id in t.c.bufs && !Listed(s.c, id) && t.c.bufs == s.c.bufs[id := t.c.bufs[id]]
    requires t.marks == s.marks && t.fate == s.fate && t.submitted == s.submitted && t.blockSize == s.blockSize
    ensures Marks(t)
  {
    QuietOff(s, id);
    forall i | 0 <= i < |t.marks|
      ensures MarkOk(t, t.marks[i], t.fate[i])
    {
      assert MarkOk(s, s.marks[i], s.fate[i]);
    }
  }

  lemma EnterKeeps(s: Client, id: Id, block: Block, nf: Flag, io: Io)
    requires Sane(s, {}) && id in s.hand
    ensures id in s.c.bufs && !Listed(s.c, id) && Sane(Enter(s, id, block, nf, io).0, {})
  {
    hide Agree, NoDup, MarkOk, Logs, Bits, Pool, CheckWatermark, Free, Lookup, Listed;
    AgreeParts(s.c);
    GetKeeps(s, block);
    var (d, x) := CacheGet(s.c, block);
    if x.Some? {
      LookupIsPlainMap(s.c, block, x.value);
      FreeKeeps(s.(c := d), id);
      FoundKeeps(Free(s.(c := d), id), x.value, nf);
    } else {
      assert Sane(CheckWatermark(s, io), {}) && CheckWatermark(s, io).hand == s.hand by { WatermarkKeeps(s, io); }
      SameLookup(s.c, CheckWatermark(s, io).c);
      EnteredKeeps(CheckWatermark(s, io), id, block, nf);
    }
  }

  lemma WatermarkKeeps(s: Client, io: Io)
    requires Sane(s, {})
    ensures Sane(CheckWatermark(s, io), {}) && CheckWatermark(s, io).hand == s.hand
  {
    hide Agree, NoDup, Places, MarkOk, Logs, Bits, Pool, WriteAsync;
    WriteAsyncKeeps(s, true, io);
  }

  /** A quiet buffer is removed from the cache, into the caller's hand. */
  lemma RemovedKeeps(s: Client, id: Id)
    requires Sane(s, {}) && Listed(s.c, id) && id in s.c.bufs && Quiet(s.c.bufs[id])
    ensures s.c.hash(s.c.bufs[id].block) < |s.c.trees| && id in ListOf(s.c, s.c.bufs[id].mode).ring
    ensures Sane(Removed(s, id), {}) && id in Removed(s, id).hand
  {
    hide Agree, NoDup, Marks, Logs, Pool, Places, Bits, Unlink, Listed;
    AgreeParts(s.c);
    UnlinkAgrees(s.c, id);
    UnlinkBufs(s.c, id);
    var t := Removed(s, id);
    EvictedPlaces(s, t.c, Some(id));
    NoLongerBusy(t, id);
    Relisted(s, t, {}, {});
  }

  lemma RemoveOrPutKeeps(s: Client, id: Id, unwanted: bool)
    requires Sane(s, {}) && Listed(s.c, id) && id in s.c.bufs && s.c.bufs[id].hold > 0 && (unwanted ==> Quiet(s.c.bufs[id]))
    ensures s.c.hash(s.c.bufs[id].block) < |s.c.trees| && id in ListOf(s.c, s.c.bufs[id].mode).ring
    ensures Sane(RemoveOrPut(s, id, unwanted), {})
  {
    hide Agree, NoDup, Marks, Logs, Pool, Places, Bits, Removed, Free;
    AgreeParts(s.c);
    UnlinkAgrees(s.c, id);
    HoldKeeps(s, id, s.c.bufs[id].hold - 1);
    if unwanted {
      RemovedKeeps(s, id);
      FreeKeeps(Removed(s, id), id);
    }
  }

  lemma ReleaseKeeps(s: Client, id: Id)
    requires Sane(s, {}) && Listed(s.c, id) && id in s.c.bufs && s.c.bufs[id].hold > 0
    ensures s.c.hash(s.c.bufs[id].block) < |s.c.trees| && id in ListOf(s.c, s.c.bufs[id].mode).ring
    ensures Sane(ReleaseBuffer(s, id), {})
  {
    hide Sane;
    var b := s.c.bufs[id];
    RemoveOrPutKeeps(s, id, (b.readError || b.writeError) && Quiet(b));
  }

  lemma ForgetKeeps(s: Client, block: Block)
    requires Sane(s, {})
    ensures HashInRange(s.c)
    ensures Lookup(s.c, block).Some? ==>
              var id := Lookup(s.c, block).value;
              id in s.c.bufs && s.c.bufs[id].block == block && id in ListOf(s.c, s.c.bufs[id].mode).ring
    ensures Sane(ForgetBlock(s, block), {})
  {
    hide Agree, NoDup, Marks, Logs, Pool, Places, Bits, RemoveOrPut, Lookup;
    AgreeParts(s.c);
    GetKeeps(s, block);
    var (d, x) := CacheGet(s.c, block);
    if x.Some? {
      LookupIsPlainMap(s.c, block, x.value);
      RemoveOrPutKeeps(s.(c := d), x.value, Quiet(d.bufs[x.value]));
    }
  }

  /** Clean and dirty lists take only buffers whose bits fit. */
  lemma MarkKeeps(s: Client, id: Id, m: Mode)
    requires Sane(s, {}) && Listed(s.c, id) && id in s.c.bufs
    requires if m == Clean then !s.c.bufs[id].dirty && !s.c.bufs[id].writing else !s.c.bufs[id].reading
    ensures id in ListOf(s.c, s.c.bufs[id].mode).ring
    ensures Sane(s.(c := CacheMark(s.c, id, m)), {}) && id in ListOf(CacheMark(s.c, id, m), m).ring
  {
    hide Agree, NoDup, Marks, Logs, Pool, Places, Bits;
    AgreeParts(s.c);
    MarkAgrees(s.c, id, m);
    var t := s.(c := CacheMark(s.c, id, m));
    LookupIsPlainMap(t.c, t.c.bufs[id].block, id);
    hide CacheMark;
    MarkedPlaces(s, t, id, m);
    Relisted(s, t, {}, {});
  }

  lemma MarkedPlaces(s: Client, t: Client, id: Id, m: Mode)
    requires Places(s) && Bits(s, {}) && t == s.(c := t.c) && SameButFor(s.c, t.c, Some(id)) && Listed(s.c, id)
    requires id in s.c.bufs && id in t.c.bufs && t.c.bufs == s.c.bufs[id := t.c.bufs[id]] && SameIo(s.c.bufs[id], t.c.bufs[id])
    requires id in ListOf(t.c, m).ring && !(id in t.c.clean.ring && id in t.c.dirty.ring)
    requires if m == Clean then !s.c.bufs[id].dirty && !s.c.bufs[id].writing else !s.c.bufs[id].reading
    ensures Places(t) && Bits(t, {})
  {
    hide RangeOk, Quiet, SameIo;
    SameIoRange(s.c.bufs[id], t.c.bufs[id], s.blockSize) by { assert BitsOk(s, id, {}); }
    forall x | x in t.c.bufs
      ensures BitsOk(t, x, {})
    {
      assert BitsOk(s, x, {});
    }
  }

  /** A mark is owed from then on. */
  lemma MarkedMarks(s: Client, t: Client, id: Id, m: Mark)
    requires Marks(s) && id in s.c.bufs && id in t.c.bufs && t == WithBuffer(s, id, t.c.bufs[id]).(marks := s.marks + [m], fate := s.fate + [Owed])
    requires m.id == id && m.block == s.c.bufs[id].block && m.start < m.end <= s.blockSize
    requires var b, b' := s.c.bufs[id], t.c.bufs[id];
             && b'.dirty && b'.block == b.block && b'.dirtyStart <= m.start && m.end <= b'.dirtyEnd
             && (b.dirty ==> b'.dirtyStart <= b.dirtyStart && b.dirtyEnd <= b'.dirtyEnd)
    ensures Marks(t)
  {
    forall i | 0 <= i < |t.marks|
      ensures MarkOk(t, t.marks[i], t.fate[i])
    {
      if i < |s.marks| { assert MarkOk(s, s.marks[i], s.fate[i]); }
    }
  }

  /** The buffer is on the dirty list and the range takes in the new one. */
  lemma DirtiedKeeps(s: Client, t: Client, id: Id, m: Mark)
    requires Sane(s, {}) && id in s.c.bufs && id in t.c.bufs && t == WithBuffer(s, id, t.c.bufs[id]).(marks := s.marks + [m], fate := s.fate + [Owed])
    requires m.id == id && m.block == s.c.bufs[id].block && m.start < m.end <= s.blockSize && id in s.c.dirty.ring && id !in s.c.clean.ring
    requires var b, b' := s.c.bufs[id], t.c.bufs[id];
             && b' == b.(dirty := true, dirtyStart := b'.dirtyStart, dirtyEnd := b'.dirtyEnd) && b'.dirtyEnd <= s.blockSize
             && b'.dirtyStart <= m.start && m.end <= b'.dirtyEnd
             && (b.dirty ==> b'.dirtyStart <= b.dirtyStart && b.dirtyEnd <= b'.dirtyEnd)
    ensures Sane(t, {})
  {
    hide Agree, NoDup, Marks, Pool, Places;
    assert BitsOk(s, id, {});
    MarkedMarks(s, t, id, m);
    Updated(s, t, {}, id);
  }

  lemma FirstMarkKeeps(s: Client, id: Id, start: nat, end: nat)
    requires Sane(s, {}) && Listed(s.c, id) && id in s.c.bufs && !s.c.bufs[id].reading && !s.c.bufs[id].dirty && start < end <= s.blockSize
    requires id in ListOf(s.c, s.c.bufs[id].mode).ring
    ensures Sane(MarkDirty(s, id, start, end), {})
  {
    hide Agree, NoDup, Marks, Logs, Pool, Places, Bits, MarkDirty, CacheMark;
    MarkKeeps(s, id, Dirty);
    var u := s.(c := CacheMark(s.c, id, Dirty));
    FirstMarkIs(s, id, start, end);
    LookupIsPlainMap(u.c, u.c.bufs[id].block, id);
    DirtiedKeeps(u, MarkDirty(s, id, start, end), id, Mark(id, s.c.bufs[id].block, start, end));
  }

  /** Moving the buffer and then setting its bit comes to the same. */
  lemma FirstMarkIs(s: Client, id: Id, start: nat, end: nat)
    requires id in s.c.bufs && !s.c.bufs[id].dirty && id in ListOf(s.c, s.c.bufs[id].mode).ring
    ensures var u := s.(c := CacheMark(s.c, id, Dirty));
            && id in u.c.bufs && SameIo(s.c.bufs[id], u.c.bufs[id])
            && MarkDirty(s, id, start, end) ==
               WithBuffer(u, id, u.c.bufs[id].(dirty := true, dirtyStart := start, dirtyEnd := end))
               .(marks := s.marks + [Mark(id, s.c.bufs[id].block, start, end)], fate := s.fate + [Owed])
  {
    hide Remove, Insert;
    var b := s.c.bufs[id];
    var b' := b.(dirty := true, dirtyStart := start, dirtyEnd := end);
    var m := s.c.bufs[id := b'.(mode := Dirty)];
    assert s.c.bufs[id := b'][id := b'.(mode := Dirty)] == m;
    assert s.c.bufs[id := b.(mode := Dirty)][id := b'.(mode := Dirty)] == m;
    hide WithList;
  }

  lemma NextMarkKeeps(s: Client, id: Id, start: nat, end: nat)
    requires Sane(s, {}) && id in s.c.bufs && s.c.bufs[id].dirty && start < end <= s.blockSize
    requires id in s.c.dirty.ring && id !in s.c.clean.ring && s.c.bufs[id].mode == Dirty
    ensures Sane(MarkDirty(s, id, start, end), {})
  {
    hide Agree, NoDup, Marks, Logs, Pool, Places, CacheMark;
    assert BitsOk(s, id, {});
    DirtiedKeeps(s, MarkDirty(s, id, start, end), id, Mark(id, s.c.bufs[id].block, start, end));
  }

  lemma MarkDirtyKeeps(s: Client, id: Id, start: nat, end: nat)
    requires Sane(s, {}) && Listed(s.c, id) && id in s.c.bufs && !s.c.bufs[id].reading && start < end <= s.blockSize
    ensures id in ListOf(s.c, s.c.bufs[id].mode).ring
    ensures Sane(MarkDirty(s, id, start, end), {})
  {
    hide Agree, NoDup, Marks, Logs, Pool, Places, MarkDirty, RangeOk;
    AgreeParts(s.c);
    LookupIsPlainMap(s.c, s.c.bufs[id].block, id);
    assert BitsOk(s, id, {});
    if s.c.bufs[id].dirty { NextMarkKeeps(s, id, start, end); } else { FirstMarkKeeps(s, id, start, end); }
  }

  lemma SettledKeeps(s: Client, id: Id)
    requires Sane(s, {}) && Listed(s.c, id) && id in s.c.bufs && s.c.bufs[id].hold > 0
    ensures id in ListOf(s.c, s.c.bufs[id].mode).ring
    ensures Sane(Settled(s, id), {})
  {
    hide Agree, NoDup, Marks, Logs, Pool, Places, Bits;
    AgreeParts(s.c);
    LookupIsPlainMap(s.c, s.c.bufs[id].block, id);
    var t := if !s.c.bufs[id].dirty && !s.c.bufs[id].writing then s.(c := CacheMark(s.c, id, Clean)) else s;
    if !s.c.bufs[id].dirty && !s.c.bufs[id].writing { MarkKeeps(s, id, Clean); }
    HoldKeeps(t, id, t.c.bufs[id].hold - 1);
  }

  lemma {:induction false} FreeAllKeeps(s: Client, out: seq<Id>)
    requires Sane(s, {}) && NoDup(out) && forall id :: id in out ==> id in s.hand
    ensures Sane(FreeAll(s, out), {})
    decreases |out|
  {
    hide Agree, Marks, Logs, Pool, Bits, Free, Listed;
    if out != [] {
      FreeKeeps(s, out[0]);
      assert forall id :: id in out[1..] ==> id in out && id != out[0];
      FreeAllKeeps(Free(s, out[0]), out[1..]);
    }
  }

  lemma ForgottenPlaces(s: Client, d: Cache, out: seq<Id>, begin: Block, end: Block)
    requires Places(s) && Dropped(s.c, d, out, begin, end, Idle(s.c.bufs))
    ensures Places(s.(c := d, hand := s.hand + Elements(out)))
  {
    hide NoDup, Idle;
  }

  lemma ForgottenBits(s: Client, d: Cache, out: seq<Id>, begin: Block, end: Block)
    requires Bits(s, {}) && Dropped(s.c, d, out, begin, end, Idle(s.c.bufs))
    ensures Bits(s.(c := d, hand := s.hand + Elements(out)), {})
  {
    hide NoDup, RangeOk;
    var t := s.(c := d, hand := s.hand + Elements(out));
    forall id | id in t.c.bufs
      ensures BitsOk(t, id, {})
    {
      assert BitsOk(s, id, {});
    }
  }

  lemma ForgottenKeeps(s: Client, d: Cache, out: seq<Id>, begin: Block, end: Block)
    requires Sane(s, {}) && Agree(d) && Dropped(s.c, d, out, begin, end, Idle(s.c.bufs))
    ensures Sane(s.(c := d, hand := s.hand + Elements(out)), {}) && NoDup(out)
    ensures forall id :: id in out ==> id in Elements(out)
  {
    hide Agree, NoDup, Marks, Logs, Pool, Places, Bits, Idle;
    ForgottenPlaces(s, d, out, begin, end);
    ForgottenBits(s, d, out, begin, end);
    Relisted(s, s.(c := d, hand := s.hand + Elements(out)), {}, {});
  }

  lemma ForgetAllKeeps(s: Client, d: Cache, out: seq<Id>, begin: Block, end: Block)
    requires Sane(s, {}) && Agree(d) && Dropped(s.c, d, out, begin, end, Idle(s.c.bufs))
    ensures Sane(ForgetAll(s, d, out), {})
  {
    hide Sane, Agree, NoDup, Dropped;
    ForgottenKeeps(s, d, out, begin, end);
    FreeAllKeeps(s.(c := d, hand := s.hand + Elements(out)), out);
  }

  /* ---------- runs ---------- */

  /** A public call, or an I/O completion. dm_bufio_new, read, get and prefetch are Fast and,
      if that finds nothing, Alloc until it yields a buffer and then Use of that buffer; the
      client's lock is not held in between. dm_bufio_write_dirty_buffers is Flush, then Hold
      and Settle for each buffer it waits for; dropping, shrinking and ageing are Reclaim. */
  datatype Event =
    | Fast(block: Block, nf: Flag)
    | Alloc(given: Option<Id>, nf: Flag, io: Io)
    | Use(id: Id, block: Block, nf: Flag, io: Io)
    | ReadDone(id: Id, status: bool)
    | WriteDone(id: Id, status: bool)
    | Release(id: Id)
    | MarkPartial(id: Id, start: nat, end: nat)
    | Flush(noWait: bool, io: Io)
    | Watermark(io: Io)
    | Hold(id: Id)
    | Settle(id: Id)
    | Forget(block: Block)
    | ForgetRange(begin: Block, end: Block, d: Cache, out: seq<Id>)
    | Reclaim(m: Mode, pred: Id -> Verdict, io: Io)

  /** What the source demands of the caller, and when an I/O can complete. */
  ghost predicate Allowed(s: Client, e: Event) {
    match e
    case Alloc(given, _, _) => given.Some? ==> given.value !in s.c.bufs
    case Use(id, _, nf, _) => id in s.hand && nf != Get
    case ReadDone(id, _) => id in s.c.bufs && s.c.bufs[id].reading
    case WriteDone(id, _) => id in s.c.bufs && s.c.bufs[id].writing
    case Release(id) => Listed(s.c, id) && id in s.c.bufs && s.c.bufs[id].hold > 0
    case MarkPartial(id, start, end) => Listed(s.c, id) && id in s.c.bufs && !s.c.bufs[id].reading && start < end <= s.blockSize
    case Hold(id) => id in s.c.dirty.ring && id in s.c.bufs
    case Settle(id) => Listed(s.c, id) && id in s.c.bufs && s.c.bufs[id].hold > 0
    case ForgetRange(begin, end, d, out) =>
      && !s.noSleep && Agree(d) && Dropped(s.c, d, out, begin, end, Idle(s.c.bufs))
      && (forall id :: InRange(s.c, id, begin, end, Idle(s.c.bufs)) ==> id in out)
    case _ => true
  }

  /** An evicted buffer is cleaned and freed. */
  ghost function ReclaimOne(s: Client, m: Mode, pred: Id -> Verdict, io: Io): (r: Client)
    requires HashInRange(s.c) && |s.marks| == |s.fate|
  {
    var (t, x) := TakeOut(s, m, pred, io);
    if x.Some? then Free(t, x.value) else t
  }

  /** Getting a buffer. */
  ghost function NewStep(s: Client, e: Event): (t: Client)
    requires Sane(s, {}) && Allowed(s, e)
  {
    AgreeParts(s.c);
    match e
    case Fast(block, nf) => FastPathKeeps(s, block, nf); FastPath(s, block, nf).0
    case Alloc(given, nf, io) => AllocBuffer(s, given, nf, io).0
    case Use(id, block, nf, io) => EnterKeeps(s, id, block, nf, io); Enter(s, id, block, nf, io).0
    case _ => s
  }

  /** Giving buffers back. */
  ghost function FreeStep(s: Client, e: Event): (t: Client)
    requires Sane(s, {}) && Allowed(s, e)
  {
    AgreeParts(s.c);
    match e
    case Release(id) => ReleaseKeeps(s, id); ReleaseBuffer(s, id)
    case Forget(block) => ForgetKeeps(s, block); ForgetBlock(s, block)
    case ForgetRange(_, _, d, out) => ForgetAll(s, d, out)
    case Reclaim(m, pred, io) => ReclaimOne(s, m, pred, io)
    case _ => s
  }

  /** Marking and writing. */
  ghost function WriteStep(s: Client, e: Event): (t: Client)
    requires Sane(s, {}) && Allowed(s, e)
  {
    match e
    case MarkPartial(id, start, end) => MarkDirtyKeeps(s, id, start, end); MarkDirty(s, id, start, end)
    case Flush(noWait, io) => WriteAsync(s, noWait, io)
    case Watermark(io) => CheckWatermark(s, io)
    case Settle(id) => SettledKeeps(s, id); Settled(s, id)
    case _ => s
  }

  ghost function Step(s: Client, e: Event): (t: Client)
    requires Sane(s, {}) && Allowed(s, e)
  {
    match e
    case Fast(_, _) | Alloc(_, _, _) | Use(_, _, _, _) => NewStep(s, e)
    case Release(_) | Forget(_) | ForgetRange(_, _, _, _) | Reclaim(_, _, _) => FreeStep(s, e)
    case ReadDone(id, status) => ReadEnd(s, id, status)
    case WriteDone(id, status) => WriteEnd(s, id, status)
    case Hold(id) => WithBuffer(s, id, s.c.bufs[id].(hold := s.c.bufs[id].hold + 1))
    case _ => WriteStep(s, e)
  }

  lemma ReclaimKeeps(s: Client, m: Mode, pred: Id -> Verdict, io: Io)
    requires Sane(s, {})
    ensures HashInRange(s.c) && Sane(ReclaimOne(s, m, pred, io), {})
  {
    hide Agree, NoDup, MarkOk, Logs, Pool, Bits, TakeOut, Free;
    AgreeParts(s.c);
    TakeOutKeeps(s, m, pred, io);
    var (t, x) := TakeOut(s, m, pred, io);
    if x.Some? { FreeKeeps(t, x.value); }
  }

  lemma SaneStep(s: Client, e: Event)
    requires Sane(s, {}) && Allowed(s, e)
    ensures Sane(Step(s, e), {})
  {
    hide Sane, Agree, FastPath, AllocBuffer, Enter, ReadEnd, WriteEnd, ReleaseBuffer, MarkDirty, WriteAsync, CheckWatermark, Settled;
    hide ForgetBlock, ForgetAll, ReclaimOne;
    match e
    case Fast(block, nf) => FastPathKeeps(s, block, nf);
    case Alloc(given, nf, io) => AllocKeeps(s, given, nf, io);
    case Use(id, block, nf, io) => EnterKeeps(s, id, block, nf, io);
    case ReadDone(id, status) => ReadEndKeeps(s, id, status, {});
    case WriteDone(id, status) => WriteEndKeeps(s, id, status, {});
    case Release(id) => ReleaseKeeps(s, id);
    case MarkPartial(id, start, end) => MarkDirtyKeeps(s, id, start, end);
    case Flush(noWait, io) => WriteAsyncKeeps(s, noWait, io);
    case Watermark(io) => WatermarkKeeps(s, io);
    case Hold(id) => HoldKeeps(s, id, s.c.bufs[id].hold + 1);
    case Settle(id) => SettledKeeps(s, id);
    case Forget(block) => ForgetKeeps(s, block);
    case ForgetRange(begin, end, d, out) => ForgetAllKeeps(s, d, out, begin, end);
    case Reclaim(m, pred, io) => ReclaimKeeps(s, m, pred, io);
  }

  /** The legal steps es lead from s to t. */
  ghost predicate Reaches(s: Client, es: seq<Event>, t: Client)
    requires Sane(s, {})
    decreases |es|, 1
  {
    if es == [] then t == s else Goes(s, es, t)
  }

  /** The first event is allowed, and the others go on from it. */
  ghost predicate Goes(s: Client, es: seq<Event>, t: Client)
    requires Sane(s, {}) && es != []
    decreases |es|, 0
  {
    Allowed(s, es[0]) && (SaneStep(s, es[0]); Reaches(Step(s, es[0]), es[1..], t))
  }

  lemma {:induction false} SaneRun(s: Client, es: seq<Event>, t: Client)
    requires Sane(s, {}) && Reaches(s, es, t)
    ensures Sane(t, {})
    decreases |es|
  {
    hide Sane, Allowed, Step;
    if es != [] {
      assert Goes(s, es, t);
      SaneStep(s, es[0]);
      SaneRun(Step(s, es[0]), es[1..], t);
    }
  }

  /* ---------- marks and writes are only ever added ---------- */

  /** Nothing is struck from the history, and a mark once sent stays with its write. */
  ghost predicate Grows(s: Client, t: Client) {
    && t.blockSize == s.blockSize && t.requested == s.requested
    && s.marks <= t.marks && s.submitted <= t.submitted && |s.fate| <= |t.fate|
    && forall i :: 0 <= i < |s.fate| && s.fate[i].Sent? ==> t.fate[i] == s.fate[i]
  }

  lemma GrowsOn(s: Client, t: Client, u: Client)
    requires Grows(s, t) && Grows(t, u)
    ensures Grows(s, u)
  {}

  lemma WriteDirtyGrows(s: Client, id: Id, status: bool)
    requires id in s.c.bufs && |s.marks| == |s.fate|
    ensures Grows(s, WriteDirty(s, id, status))
  {}

  lemma {:induction false} WriteEachGrows(s: Client, ids: seq<Id>, noWait: bool, io: Io)
    requires |s.marks| == |s.fate| && forall i :: 0 <= i < |ids| ==> ids[i] in s.c.bufs
    ensures Grows(s, WriteEach(s, ids, noWait, io))
    decreases |ids|
  {
    hide WriteDirty;
    if ids != [] && !(noWait && s.c.bufs[ids[0]].writing) {
      var t := WriteDirty(s, ids[0], io.earlier(ids[0]));
      WriteDirtyGrows(s, ids[0], io.earlier(ids[0]));
      WriteEachGrows(t, ids[1..], noWait, io);
      GrowsOn(s, t, WriteEach(t, ids[1..], noWait, io));
    }
  }

  lemma WriteAsyncGrows(s: Client, noWait: bool, io: Io)
    requires Agree(s.c) && |s.marks| == |s.fate|
    ensures Grows(s, WriteAsync(s, noWait, io))
  {
    hide Agree, WriteEach, Grows;
    var t := MoveClean(s);
    AgreeParts(t.c);
    WriteEachGrows(t, t.c.dirty.ring, noWait, io);
    SameHistory(s, t, WriteEach(t, t.c.dirty.ring, noWait, io));
  }

  lemma SameHistory(s: Client, t: Client, u: Client)
    requires t == s.(c := t.c, hand := t.hand, reserved := t.reserved, need := t.need) && Grows(t, u)
    ensures Grows(s, u)
  {}

  lemma MakeCleanGrows(s: Client, id: Id, io: Io)
    requires id in s.c.bufs && |s.marks| == |s.fate|
    ensures Grows(s, MakeClean(s, id, io))
  {
    hide WriteDirty;
    WriteDirtyGrows(if s.c.bufs[id].reading then ReadEnd(s, id, io.read) else s, id, io.earlier(id));
  }

  lemma TakeOutGrows(s: Client, m: Mode, pred: Id -> Verdict, io: Io)
    requires HashInRange(s.c) && |s.marks| == |s.fate|
    ensures Grows(s, TakeOut(s, m, pred, io).0)
  {
    hide CacheEvict, MakeClean;
    var (d, x) := CacheEvict(s.c, m, pred);
    if x.Some? { MakeCleanGrows(s.(c := d, hand := s.hand + {x.value}), x.value, io); }
  }

  lemma AllocGrows(s: Client, given: Option<Id>, nf: Flag, io: Io)
    requires HashInRange(s.c) && |s.marks| == |s.fate|
    ensures Grows(s, AllocBuffer(s, given, nf, io).0)
  {
    hide TakeOut;
    TakeOutGrows(s, Clean, IsClean(s.c.bufs, s.noSleep), io);
    var t := TakeOut(s, Clean, IsClean(s.c.bufs, s.noSleep), io).0;
    TakeOutGrows(t, Dirty, IsDirty(t.c.bufs), io);
    GrowsOn(s, t, TakeOut(t, Dirty, IsDirty(t.c.bufs), io).0);
  }

  lemma EnterGrows(s: Client, id: Id, block: Block, nf: Flag, io: Io)
    requires Agree(s.c) && |s.marks| == |s.fate| && id in s.c.bufs && !Listed(s.c, id)
    ensures Grows(s, Enter(s, id, block, nf, io).0)
  {
    hide Agree, WriteAsync, Listed, CacheInsert, Lookup, Grows, CacheGet;
    AgreeParts(s.c);
    GetAgrees(s.c, block);
    var r := Enter(s, id, block, nf, io).0;
    if CacheGet(s.c, block).1.Some? {
      SameGrows(s, r);
    } else {
      WriteAsyncGrows(s, true, io);
      SameGrows(s, s);
      var t := CheckWatermark(s, io);
      SameGrows(t, r);
      GrowsOn(s, t, r);
    }
  }

  lemma SameGrows(s: Client, t: Client)
    requires t.blockSize == s.blockSize && t.requested == s.requested && t.marks == s.marks && t.submitted == s.submitted && t.fate == s.fate
    ensures Grows(s, t)
  {}

  lemma {:induction false} FreeAllGrows(s: Client, out: seq<Id>)
    ensures Grows(s, FreeAll(s, out))
    decreases |out|
  {
    if out != [] && out[0] in s.c.bufs { FreeAllGrows(Free(s, out[0]), out[1..]); }
  }

  lemma NewStepGrows(s: Client, e: Event)
    requires Sane(s, {}) && Allowed(s, e)
    ensures Grows(s, NewStep(s, e))
  {
    hide Agree, Places, Pool, Bits, MarkOk, Logs, AllocBuffer, Enter, Lookup;
    AgreeParts(s.c);
    match e
    case Fast(block, nf) => FastPathKeeps(s, block, nf);
    case Alloc(given, nf, io) => AllocGrows(s, given, nf, io);
    case Use(id, block, nf, io) => EnterKeeps(s, id, block, nf, io); EnterGrows(s, id, block, nf, io);
    case _ =>
  }

  lemma RemoveOrPutGrows(s: Client, id: Id, unwanted: bool)
    requires id in s.c.bufs && s.c.bufs[id].hold > 0
    requires s.c.hash(s.c.bufs[id].block) < |s.c.trees| && id in ListOf(s.c, s.c.bufs[id].mode).ring
    ensures Grows(s, RemoveOrPut(s, id, unwanted))
  {
    hide Unlink;
    UnlinkBufs(s.c, id);
  }

  lemma FreeStepGrows(s: Client, e: Event)
    requires Sane(s, {}) && Allowed(s, e)
    ensures Grows(s, FreeStep(s, e))
  {
    hide Agree, Places, Pool, Bits, MarkOk, Logs, TakeOut, FreeAll, Lookup, Unlink, Dropped, InRange, RemoveOrPut;
    AgreeParts(s.c);
    match e
    case Release(id) => ReleaseKeeps(s, id); RemoveOrPutGrows(s, id, (s.c.bufs[id].readError || s.c.bufs[id].writeError) && Quiet(s.c.bufs[id]));
    case Forget(block) =>
      ForgetKeeps(s, block);
      var (d, x) := CacheGet(s.c, block);
      if x.Some? { RemoveOrPutGrows(s.(c := d), x.value, Quiet(d.bufs[x.value])); }
    case ForgetRange(_, _, d, out) => FreeAllGrows(s.(c := d, hand := s.hand + Elements(out)), out);
    case Reclaim(m, pred, io) => TakeOutGrows(s, m, pred, io);
    case _ =>
  }

  lemma WriteStepGrows(s: Client, e: Event)
    requires Sane(s, {}) && Allowed(s, e)
    ensures Grows(s, WriteStep(s, e))
  {
    hide Agree, Places, Pool, Bits, MarkOk, Logs, WriteAsync, CacheMark;
    AgreeParts(s.c);
    match e
    case MarkPartial(id, start, end) => MarkDirtyKeeps(s, id, start, end);
    case Settle(id) => SettledKeeps(s, id);
    case Flush(noWait, io) => WriteAsyncGrows(s, noWait, io);
    case Watermark(io) => WriteAsyncGrows(s, true, io);
    case _ =>
  }

  lemma StepGrows(s: Client, e: Event)
    requires Sane(s, {}) && Allowed(s, e)
    ensures Grows(s, Step(s, e))
  {
    hide Sane, Allowed, NewStep, FreeStep, WriteStep;
    NewStepGrows(s, e);
    FreeStepGrows(s, e);
    WriteStepGrows(s, e);
  }

  lemma {:induction false} RunGrows(s: Client, es: seq<Event>, t: Client)
    requires Sane(s, {}) && Reaches(s, es, t)
    ensures Grows(s, t)
    decreases |es|
  {
    hide Sane, Allowed, Step;
    if es != [] {
      assert Goes(s, es, t);
      SaneStep(s, es[0]);
      StepGrows(s, es[0]);
      RunGrows(Step(s, es[0]), es[1..], t);
      GrowsOn(s, Step(s, es[0]), t);
    }
  }

  /* ---------- what this means ---------- */

  /** A client being created: an empty cache, and all buffers in the reserve. */
  ghost predicate Creating(s: Client) {
    && Agree(s.c) && s.c.clean.ring == [] && s.c.dirty.ring == [] && s.hand == {}
    && NoDup(s.reserved) && |s.reserved| + s.need == s.requested
    && (forall id :: id in s.c.bufs <==> id in s.reserved) && (forall id :: id in s.c.bufs ==> Quiet(s.c.bufs[id]))
    && s.marks == [] && s.fate == [] && s.submitted == [] && forall j :: 0 <= j < |s.freed| ==> Quiet(s.freed[j])
  }

  /** A client just created: nothing is owed to the reserve. */
  ghost predicate Created(s: Client) { Creating(s) && s.need == 0 }

  /** One buffer more for the reserve. */
  function FillOne(s: Client, id: Id): (r: Client) {
    Free(WithBuffer(s, id, BLANK).(hand := s.hand + {id}), id)
  }

  lemma FillKeeps(s: Client, id: Id)
    requires Creating(s) && id !in s.c.bufs && s.need > 0
    ensures Creating(FillOne(s, id)) && FillOne(s, id).need == s.need - 1
    ensures forall x :: x in FillOne(s, id).c.bufs <==> x in s.c.bufs || x == id
  {
    hide Agree;
    AgreeParts(s.c);
    OffListAgrees(s.c, FillOne(s, id).c);
  }

  lemma CreatedSane(s: Client)
    requires Created(s)
    ensures Sane(s, {})
  {
    hide Agree;
    NoDupFits(s.reserved, s.c.bufs.Keys);
    assert |s.c.bufs| == |s.c.bufs.Keys|;
    assert forall id :: id in s.c.bufs ==> BitsOk(s, id, {});
  }

  /** In every run, trees and lists agree; a buffer on the clean list is neither dirty nor being
      written, one on the dirty list is not being read; and no buffer was freed dirty or under
      I/O. */
  lemma BitsInEveryRun(s: Client, es: seq<Event>, t: Client)
    requires Created(s) && Sane(s, {}) && Reaches(s, es, t)
    ensures Agree(t.c)
    ensures forall id :: id in t.c.clean.ring ==> id in t.c.bufs && !t.c.bufs[id].dirty && !t.c.bufs[id].writing
    ensures forall id :: id in t.c.dirty.ring ==> id in t.c.bufs && !t.c.bufs[id].reading
    ensures forall j :: 0 <= j < |t.freed| ==> Quiet(t.freed[j])
  {
    hide Agree, Reaches, RangeOk, MarkOk, Created;
    SaneRun(s, es, t);
    AgreeParts(t.c);
    forall id | id in t.c.bufs
      ensures BitsOk(t, id, {})
    {}
  }

  /** No dirty byte is lost: in every run, each range ever marked dirty is still owed by its own
      buffer, which is dirty over the whole range, or went into exactly one write, to the same
      block; and what that write handed to the device covers the range and stays in the block,
      wherever the write's end rounds up without wrapping. */
  lemma NoDirtyByteLost(s: Client, es: seq<Event>, t: Client, i: nat)
    requires Created(s) && Sane(s, {}) && Reaches(s, es, t) && i < |t.marks|
    requires s.blockSize < 0x1_0000_0000 && s.blockSize % 512 == 0
    ensures |t.fate| == |t.marks|
    ensures t.fate[i] == Owed ==>
              && Listed(t.c, t.marks[i].id) && t.marks[i].id in t.c.bufs && t.c.bufs[t.marks[i].id].dirty
              && t.c.bufs[t.marks[i].id].block == t.marks[i].block
              && t.c.bufs[t.marks[i].id].dirtyStart <= t.marks[i].start && t.marks[i].end <= t.c.bufs[t.marks[i].id].dirtyEnd
    ensures t.fate[i].Sent? ==>
              && t.fate[i].write < |t.submitted| && t.submitted[t.fate[i].write].block == t.marks[i].block
              && var w := t.submitted[t.fate[i].write];
                 w.end + 4095 < 0x1_0000_0000 ==>
                   InBlock(SubmitRange(w.start, w.end, s.blockSize), t.marks[i].start, t.marks[i].end, s.blockSize)
  {
    hide Agree, Reaches, RangeOk, Created, Pool, SubmitRange;
    SaneRun(s, es, t);
    RunGrows(s, es, t);
    assert MarkOk(t, t.marks[i], t.fate[i]);
    match t.fate[i]
    case Owed => assert BitsOk(t, t.marks[i].id, {});
    case Sent(j) => SubmitCoversIff(t.submitted[j].start, t.submitted[j].end, t.blockSize);
  }

  /** The write takes everything marked since the one before it. */
  lemma CaptureCovers(s: Client, id: Id, status: bool, i: nat)
    requires Sane(s, {}) && id in s.c.bufs && s.c.bufs[id].dirty && i < |s.marks| && s.marks[i].id == id && s.fate[i] == Owed
    ensures var t := WriteDirty(s, id, status);
            && t.fate[i] == Sent(|s.submitted|) && |t.submitted| == |s.submitted| + 1 && !t.c.bufs[id].dirty
            && var w := t.submitted[|s.submitted|];
               w.id == id && w.block == s.marks[i].block && w.start <= s.marks[i].start && s.marks[i].end <= w.end
  {
    hide Agree, Places, Pool, Bits, Logs;
    assert MarkOk(s, s.marks[i], s.fate[i]);
  }

  /** The reserve: what is in it and what it is owed make up what was asked for; the debt never
      exceeds the live buffers outside it, and is nil once those are gone. */
  lemma ReserveConserved(s: Client, es: seq<Event>, t: Client)
    requires Created(s) && Sane(s, {}) && Reaches(s, es, t)
    ensures |t.reserved| + t.need == s.requested && t.need <= |t.c.bufs| - |t.reserved|
    ensures t.hand == {} && (forall id :: !Listed(t.c, id)) ==> t.need == 0
  {
    hide Agree, Reaches, Bits, Marks, Logs, Created;
    SaneRun(s, es, t);
    RunGrows(s, es, t);
    if t.hand == {} && (forall id :: !Listed(t.c, id)) {
      assert t.c.clean.ring == [] && t.c.dirty.ring == [] by { NoneListed(t.c); }
      AllDropped(t);
    }
  }

  lemma NoneListed(c: Cache)
    requires forall id :: !Listed(c, id)
    ensures c.clean.ring == [] && c.dirty.ring == []
  {
    if c.clean.ring != [] { assert Listed(c, c.clean.ring[0]); }
    if c.dirty.ring != [] { assert Listed(c, c.dirty.ring[0]); }
  }

  lemma SubsetCount(a: set<Id>, b: set<Id>)
    requires a <= b
    ensures |a| <= |b|
  {
    assert b == a + (b - a);
  }

  lemma {:induction false} ElementsCount(s: seq<Id>)
    ensures |Elements(s)| <= |s|
    decreases |s|
  {
    if s != [] {
      ElementsCount(s[1..]);
      assert Elements(s) == {s[0]} + Elements(s[1..]);
    }
  }

  /* ---------- dropping all buffers ---------- */

  ghost predicate Unheld(c: Cache) { forall id :: Listed(c, id) && id in c.bufs ==> c.bufs[id].hold == 0 }

  function Population(c: Cache): (n: nat) { |c.clean.ring| + |c.dirty.ring| }

  /** Where every buffer of a list may go, one is found unless the list is empty. */
  lemma TakeOutFinds(s: Client, m: Mode, pred: Id -> Verdict, io: Io)
    requires Sane(s, {}) && Unheld(s.c) && forall id :: id in ListOf(s.c, m).ring ==> pred(id) == Evict
    ensures HashInRange(s.c) && |s.marks| == |s.fate|
    ensures TakeOut(s, m, pred, io).1.None? <==> ListOf(s.c, m).ring == []
  {
    hide Sane, Agree, NoDup, EvictSpec, MakeClean;
    SaneParts(s, {});
    AgreeParts(s.c);
    EvictFinds(ListOf(s.c, m), Guarded(s.c.bufs, pred));
    EvictTakesOut(ListOf(s.c, m), Guarded(s.c.bufs, pred));
  }

  lemma WriteDirtyOnly(s: Client, id: Id, status: bool, x: Id)
    requires id in s.c.bufs && |s.marks| == |s.fate| && x in s.c.bufs && x != id
    ensures WriteDirty(s, id, status).c.bufs[x] == s.c.bufs[x]
  {}

  lemma MakeCleanOnly(s: Client, id: Id, io: Io, x: Id)
    requires id in s.c.bufs && |s.marks| == |s.fate| && x in s.c.bufs && x != id
    ensures MakeClean(s, id, io).c.bufs[x] == s.c.bufs[x]
  {
    hide WriteDirty;
    WriteDirtyOnly(if s.c.bufs[id].reading then ReadEnd(s, id, io.read) else s, id, io.earlier(id), x);
  }

  /** What is taken out is one buffer less; the rest stays as it was. */
  lemma TakeOutRest(s: Client, m: Mode, pred: Id -> Verdict, io: Io)
    requires Sane(s, {})
    ensures HashInRange(s.c) && |s.marks| == |s.fate|
    ensures var (t, x) := TakeOut(s, m, pred, io);
            && Population(t.c) == Population(s.c) - (if x.Some? then 1 else 0)
            && (Unheld(s.c) ==> Unheld(t.c)) && t.noSleep == s.noSleep
            && (x.None? ==> t.c.bufs == s.c.bufs && |t.c.clean.ring| == |s.c.clean.ring|)
            && t.hand == if x.Some? then s.hand + {x.value} else s.hand
  {
    hide Sane, Agree, NoDup, EvictSpec, MakeClean, Lookup, TreeErase;
    SaneParts(s, {});
    AgreeParts(s.c);
    EvictAgrees(s.c, m, pred);
    EvictTakesOut(ListOf(s.c, m), Guarded(s.c.bufs, pred));
    EraseKeepsRings(s.c, m, pred);
    var (d, x) := CacheEvict(s.c, m, pred);
    if x.Some? {
      var u := s.(c := d, hand := s.hand + {x.value});
      MakeCleanSame(u, x.value, io);
      assert MakeClean(u, x.value, io).c == d.(bufs := MakeClean(u, x.value, io).c.bufs);
      forall id | id in d.bufs && id != x.value
        ensures MakeClean(u, x.value, io).c.bufs[id] == d.bufs[id]
      {
        MakeCleanOnly(u, x.value, io, id);
      }
    }
  }

  lemma MakeCleanSame(s: Client, id: Id, io: Io)
    requires id in s.c.bufs && |s.marks| == |s.fate|
    ensures MakeClean(s, id, io).noSleep == s.noSleep
  {}

  lemma EraseKeepsRings(c: Cache, m: Mode, pred: Id -> Verdict)
    requires HashInRange(c)
    ensures ListOf(CacheEvict(c, m, pred).0, m) == EvictSpec(ListOf(c, m), Guarded(c.bufs, pred)).0
    ensures if m == Clean then CacheEvict(c, m, pred).0.dirty == c.dirty else CacheEvict(c, m, pred).0.clean == c.clean
    ensures CacheEvict(c, m, pred).1.None? ==>
              var x := EvictSpec(ListOf(c, m), Guarded(c.bufs, pred)).1; x.None? || x.value !in c.bufs
  {
    hide EvictSpec;
  }

  /** With nothing held, no buffer is found only when none is left. */
  lemma UnclaimedFinds(s: Client, io: Io)
    requires Sane(s, {}) && Unheld(s.c) && !s.noSleep
    ensures HashInRange(s.c) && |s.marks| == |s.fate|
    ensures GetUnclaimed(s, io).1.None? ==> GetUnclaimed(s, io).0.c.clean.ring == [] && GetUnclaimed(s, io).0.c.dirty.ring == []
  {
    hide Sane, Agree, TakeOut, Unheld, IsClean, IsDirty;
    ListPredicates(s);
    TakeOutFinds(s, Clean, IsClean(s.c.bufs, s.noSleep), io);
    TakeOutRest(s, Clean, IsClean(s.c.bufs, s.noSleep), io);
    TakeOutKeeps(s, Clean, IsClean(s.c.bufs, s.noSleep), io);
    var t := TakeOut(s, Clean, IsClean(s.c.bufs, s.noSleep), io).0;
    ListPredicates(t);
    TakeOutFinds(t, Dirty, IsDirty(t.c.bufs), io);
    TakeOutRest(t, Dirty, IsDirty(t.c.bufs), io);
  }

  /** A client that may not sleep never gets to its dirty list. */
  lemma NoSleepLeavesDirty(s: Client, io: Io)
    requires HashInRange(s.c) && |s.marks| == |s.fate| && s.noSleep
    ensures GetUnclaimed(s, io).0.c.dirty == s.c.dirty
  {
    hide CacheEvict, MakeClean, EvictSpec;
    EraseKeepsRings(s.c, Clean, IsClean(s.c.bufs, s.noSleep));
  }

  /** The warnings in is_clean and is_dirty never fire. */
  lemma ListPredicates(s: Client)
    requires Sane(s, {})
    ensures !s.noSleep ==> forall id :: id in s.c.clean.ring ==> IsClean(s.c.bufs, s.noSleep)(id) == Evict
    ensures forall id :: id in s.c.dirty.ring ==> IsDirty(s.c.bufs)(id) == Evict
  {
    hide Agree, NoDup, Marks, Logs, Places, Pool, RangeOk;
    AgreeParts(s.c);
    forall id | Listed(s.c, id)
      ensures BitsOk(s, id, {})
    {}
  }

  lemma UnclaimedRest(s: Client, io: Io)
    requires Sane(s, {})
    ensures HashInRange(s.c) && |s.marks| == |s.fate|
    ensures var (t, x) := GetUnclaimed(s, io);
            && Population(t.c) == Population(s.c) - (if x.Some? then 1 else 0)
            && (Unheld(s.c) ==> Unheld(t.c)) && t.noSleep == s.noSleep && t.hand == if x.Some? then s.hand + {x.value} else s.hand
  {
    hide Sane, Agree, TakeOut, Unheld, Population;
    TakeOutRest(s, Clean, IsClean(s.c.bufs, s.noSleep), io);
    TakeOutKeeps(s, Clean, IsClean(s.c.bufs, s.noSleep), io);
    var t := TakeOut(s, Clean, IsClean(s.c.bufs, s.noSleep), io).0;
    TakeOutRest(t, Dirty, IsDirty(t.c.bufs), io);
  }

  lemma {:induction false} WriteEachHolds(s: Client, ids: seq<Id>, noWait: bool, io: Io, id: Id)
    requires |s.marks| == |s.fate| && id in s.c.bufs && forall i :: 0 <= i < |ids| ==> ids[i] in s.c.bufs
    ensures var b, b' := s.c.bufs[id], WriteEach(s, ids, noWait, io).c.bufs[id];
            b'.hold == b.hold && b'.block == b.block && b'.reading == b.reading
    decreases |ids|
  {
    if ids != [] && !(noWait && s.c.bufs[ids[0]].writing) {
      WriteEachHolds(WriteDirty(s, ids[0], io.earlier(ids[0])), ids[1..], noWait, io, id);
    }
  }

  lemma WriteAsyncUnheld(s: Client, noWait: bool, io: Io)
    requires Sane(s, {}) && Unheld(s.c)
    ensures Agree(s.c) && |s.marks| == |s.fate| && Unheld(WriteAsync(s, noWait, io).c)
  {
    hide Sane, Agree, NoDup, MoveAll, WriteEach, Cleaned;
    SaneParts(s, {});
    MovedNone(s.c, Dirty, Clean, Cleaned(s.c.bufs));
    MoveAllMoves(s.c, s.c, Dirty, Clean, Cleaned(s.c.bufs));
    var t := MoveClean(s);
    AgreeParts(t.c);
    var u := WriteAsync(s, noWait, io);
    forall id | Listed(u.c, id) && id in u.c.bufs
      ensures u.c.bufs[id].hold == 0
    {
      MovedListed(s.c, t.c, id);
      WriteEachHolds(t, t.c.dirty.ring, noWait, io, id);
    }
  }

  lemma FreeRest(s: Client, id: Id)
    requires id in s.c.bufs && !Listed(s.c, id)
    ensures Population(Free(s, id).c) == Population(s.c) && (Unheld(s.c) ==> Unheld(Free(s, id).c))
    ensures Free(s, id).hand == s.hand - {id} && Free(s, id).noSleep == s.noSleep
  {}

  /** A buffer is found unclaimed and freed, if there is one. */
  ghost function FreeUnclaimed(s: Client, io: Io): (r: (Client, bool))
    requires HashInRange(s.c) && |s.marks| == |s.fate|
  {
    var (t, b) := GetUnclaimed(s, io);
    if b.Some? && b.value in t.c.bufs then (Free(t, b.value), true) else (t, false)
  }

  lemma FreeUnclaimedKeeps(s: Client, io: Io)
    requires Sane(s, {})
    ensures HashInRange(s.c) && |s.marks| == |s.fate|
    ensures var (t, more) := FreeUnclaimed(s, io);
            && Sane(t, {}) && t.hand == s.hand && t.noSleep == s.noSleep && (Unheld(s.c) ==> Unheld(t.c))
            && more == GetUnclaimed(s, io).1.Some? && (more ==> Population(t.c) < Population(s.c))
  {
    hide Sane, Agree, GetUnclaimed, Unheld, Population, Free;
    SaneParts(s, {});
    GetUnclaimedKeeps(s, io);
    UnclaimedRest(s, io);
    var (t, b) := GetUnclaimed(s, io);
    if b.Some? {
      HandIn(t, b.value);
      FreeRest(t, b.value);
      FreeKeeps(t, b.value);
    }
  }

  /** An I/O of the buffer completes, if one is under way. */
  function Complete(s: Client, id: Id, status: bool): (r: Client) {
    if id !in s.c.bufs then s
    else if s.c.bufs[id].reading then ReadEnd(s, id, status)
    else if s.c.bufs[id].writing then WriteEnd(s, id, status)
    else s
  }

  function CompleteAll(s: Client, done: seq<(Id, bool)>): (r: Client)
    decreases |done|
  {
    if done == [] then s else CompleteAll(Complete(s, done[0].0, done[0].1), done[1..])
  }

  /** Only bits have been cleared. */
  ghost predicate Calmer(s: Client, t: Client) {
    && t == s.(c := s.c.(bufs := t.c.bufs)) && t.c.bufs.Keys == s.c.bufs.Keys
    && forall id :: id in s.c.bufs ==> t.c.bufs[id].hold == s.c.bufs[id].hold && (t.c.bufs[id].reading ==> s.c.bufs[id].reading)
  }

  lemma CompleteOne(s: Client, id: Id, status: bool)
    requires Sane(s, {})
    ensures Sane(Complete(s, id, status), {}) && Calmer(s, Complete(s, id, status))
  {
    hide Sane;
    if id in s.c.bufs {
      ReadEndKeeps(s, id, status, {});
      WriteEndKeeps(s, id, status, {});
    }
  }

  lemma CalmerOn(s: Client, t: Client, u: Client)
    requires Calmer(s, t) && Calmer(t, u)
    ensures Calmer(s, u)
  {}

  lemma {:induction false} CompleteKeeps(s: Client, done: seq<(Id, bool)>)
    requires Sane(s, {})
    ensures Sane(CompleteAll(s, done), {}) && Calmer(s, CompleteAll(s, done))
    decreases |done|
  {
    if done == [] {
      assert Calmer(s, s);
    } else {
      hide Sane, Calmer, Complete;
      var (id, status) := done[0];
      CompleteOne(s, id, status);
      CompleteKeeps(Complete(s, id, status), done[1..]);
      CalmerOn(s, Complete(s, id, status), CompleteAll(s, done));
    }
  }

  lemma CalmerCounts(s: Client, t: Client)
    requires Calmer(s, t)
    ensures Population(t.c) == Population(s.c) && (Unheld(s.c) ==> Unheld(t.c)) && t.hand == s.hand && t.noSleep == s.noSleep
    ensures t.c.dirty.ring == s.c.dirty.ring && t.c.clean.ring == s.c.clean.ring
  {}

  /** The second half of drop_buffers: unclaimed buffers are freed until none is found. Before
      each round I/O may complete, since completions do not take the lock. */
  ghost function DropRest(s: Client, io: nat -> Io, done: nat -> seq<(Id, bool)>, round: nat): (r: Client)
    requires Sane(s, {})
    ensures Sane(r, {}) && r.hand == s.hand && r.noSleep == s.noSleep
    decreases Population(s.c)
  {
    hide Sane, GetUnclaimed, FreeUnclaimed, Calmer, Population;
    CompleteKeeps(s, done(round));
    CalmerCounts(s, CompleteAll(s, done(round)));
    FreeUnclaimedKeeps(CompleteAll(s, done(round)), io(round));
    var (t, more) := FreeUnclaimed(CompleteAll(s, done(round)), io(round));
    if more then DropRest(t, io, done, round + 1) else t
  }

  /** drop_buffers. */
  ghost function DropAll(s: Client, io: nat -> Io, done: nat -> seq<(Id, bool)>): (r: Client)
    requires Sane(s, {})
    ensures Sane(r, {}) && r.hand == s.hand && r.noSleep == s.noSleep
  {
    hide Sane, WriteAsync;
    SaneParts(s, {});
    WriteAsyncKeeps(s, false, io(0));
    DropRest(WriteAsync(s, false, io(0)), io, done, 1)
  }

  /** Every cached buffer is idle. */
  ghost predicate AllQuiet(c: Cache) { forall id :: Listed(c, id) && id in c.bufs ==> Quiet(c.bufs[id]) }

  /** Every buffer on the dirty list is idle. */
  ghost predicate DirtyIdle(c: Cache) { forall id :: id in c.dirty.ring && id in c.bufs ==> Quiet(c.bufs[id]) }

  /** Nothing on the clean list is being read. */
  ghost predicate NoneRead(c: Cache) { forall id :: id in c.clean.ring && id in c.bufs ==> !c.bufs[id].reading }

  /** Moving the cleaned buffers empties the dirty list exactly when all on it are idle. */
  lemma MoveCleanEmptiesIff(s: Client)
    requires Sane(s, {}) && Unheld(s.c)
    ensures Agree(s.c) && (MoveClean(s).c.dirty.ring == [] <==> DirtyIdle(s.c))
  {
    hide Sane, Agree, NoDup, MoveAll, Cleaned;
    SaneParts(s, {});
    AgreeParts(s.c);
    if MoveClean(s).c.dirty.ring == [] {
      forall id | id in s.c.dirty.ring && id in s.c.bufs
        ensures Quiet(s.c.bufs[id])
      {
        MovedQuiet(s, id);
      }
    }
    if DirtyIdle(s.c) {
      CleanedAll(s.c);
      MoveAllEmpties(s.c, Dirty, Clean, Cleaned(s.c.bufs));
    }
  }

  /** Nothing is on the dirty list, and nothing on the clean one is being read. */
  ghost predicate AllClean(c: Cache) { c.dirty.ring == [] && NoneRead(c) }

  /** Moving the cleaned buffers empties the dirty list, and leaves nothing being read, exactly
      when every buffer is idle. */
  lemma MoveCleanIff(s: Client)
    requires Sane(s, {}) && Unheld(s.c)
    ensures Agree(s.c) && (AllClean(MoveClean(s).c) <==> AllQuiet(s.c))
  {
    hide Sane, Agree, NoDup, MoveAll, Moved, Cleaned;
    SaneParts(s, {});
    var t := MoveClean(s);
    MovedNone(s.c, Dirty, Clean, Cleaned(s.c.bufs));
    MoveAllMoves(s.c, s.c, Dirty, Clean, Cleaned(s.c.bufs));
    forall id
      ensures Listed(t.c, id) <==> Listed(s.c, id)
      ensures id in s.c.bufs ==> id in t.c.bufs && t.c.bufs[id].reading == s.c.bufs[id].reading
      ensures t.c.dirty.ring == [] && id in s.c.dirty.ring && id in s.c.bufs ==> Quiet(s.c.bufs[id])
      ensures id in s.c.clean.ring && id in s.c.bufs && !s.c.bufs[id].reading ==> Quiet(s.c.bufs[id])
    {
      MovedListed(s.c, t.c, id);
      if id in s.c.clean.ring && id in s.c.bufs { CleanBits(s, id); }
      if t.c.dirty.ring == [] && id in s.c.dirty.ring && id in s.c.bufs { MovedQuiet(s, id); }
    }
    if AllQuiet(s.c) {
      AgreeParts(s.c);
      AgreeParts(t.c);
      assert forall id :: id in s.c.dirty.ring ==> Cleaned(s.c.bufs)(id) == Evict by { CleanedAll(s.c); }
      MoveAllEmpties(s.c, Dirty, Clean, Cleaned(s.c.bufs));
    }
  }

  lemma CleanedAll(c: Cache)
    requires Agree(c) && DirtyIdle(c)
    ensures forall id :: id in c.dirty.ring ==> Cleaned(c.bufs)(id) == Evict
  {
    hide Agree;
    AgreeParts(c);
  }

  lemma CleanBits(s: Client, id: Id)
    requires Sane(s, {}) && id in s.c.clean.ring && id in s.c.bufs
    ensures !s.c.bufs[id].dirty && !s.c.bufs[id].writing
  {
    hide Agree, Marks, Logs, Places, Pool, RangeOk;
    assert BitsOk(s, id, {});
  }

  /** A buffer that has left the dirty list was idle. */
  lemma MovedQuiet(s: Client, id: Id)
    requires Sane(s, {}) && id in s.c.dirty.ring && id in s.c.bufs && MoveClean(s).c.dirty.ring == []
    ensures Quiet(s.c.bufs[id])
  {
    hide Sane, Agree, NoDup, MoveAll;
    SaneParts(s, {});
    AgreeParts(s.c);
    var t := MoveClean(s);
    AgreeParts(t.c);
    MovedNone(s.c, Dirty, Clean, Cleaned(s.c.bufs));
    MoveAllMoves(s.c, s.c, Dirty, Clean, Cleaned(s.c.bufs));
    MovedListed(s.c, t.c, id);
  }

  /** What a client that may not sleep cannot drop: the dirty list, and on the clean list every
      buffer being read. */
  ghost predicate Remains(c0: Cache, c: Cache) {
    && c.dirty.ring == c0.dirty.ring
    && (forall id :: id in c.clean.ring ==> id in c0.clean.ring && id in c.bufs && id in c0.bufs && c.bufs[id].reading == c0.bufs[id].reading)
    && (forall id :: id in c0.clean.ring && id in c0.bufs && c0.bufs[id].reading ==> id in c.clean.ring)
  }

  lemma WriteRemains(s: Client, noWait: bool, io: Io)
    requires Sane(s, {})
    ensures Agree(s.c) && |s.marks| == |s.fate| && Remains(MoveClean(s).c, WriteAsync(s, noWait, io).c)
  {
    hide Sane, Agree, NoDup, MoveAll, WriteEach, Cleaned;
    SaneParts(s, {});
    var t := MoveClean(s);
    AgreeParts(t.c);
    forall id | id in t.c.clean.ring
      ensures WriteEach(t, t.c.dirty.ring, noWait, io).c.bufs[id].reading == t.c.bufs[id].reading
    {
      WriteEachHolds(t, t.c.dirty.ring, noWait, io, id);
    }
  }

  /** What an eviction leaves: one buffer less on its list, all others as they were. */
  lemma TakeOutLeaves(s: Client, m: Mode, pred: Id -> Verdict, io: Io)
    requires Sane(s, {})
    ensures HashInRange(s.c) && |s.marks| == |s.fate|
    ensures var (t, x) := TakeOut(s, m, pred, io);
            && ListOf(t.c, if m == Clean then Dirty else Clean) == ListOf(s.c, if m == Clean then Dirty else Clean)
            && (forall id :: id in ListOf(t.c, m).ring <==> id in ListOf(s.c, m).ring && x != Some(id))
            && (forall id :: id in s.c.bufs && x != Some(id) ==> id in t.c.bufs && t.c.bufs[id] == s.c.bufs[id])
            && (x.Some? ==> Matches(s.c, m, pred, x.value))
  {
    hide Sane, Agree, NoDup, EvictSpec, MakeClean, Lookup, TreeErase;
    SaneParts(s, {});
    AgreeParts(s.c);
    EvictAgrees(s.c, m, pred);
    EvictTakesOut(ListOf(s.c, m), Guarded(s.c.bufs, pred));
    EraseKeepsRings(s.c, m, pred);
    var (d, x) := CacheEvict(s.c, m, pred);
    if x.Some? {
      var u := s.(c := d, hand := s.hand + {x.value});
      assert MakeClean(u, x.value, io).c == d.(bufs := MakeClean(u, x.value, io).c.bufs);
      forall id | id in d.bufs && id != x.value
        ensures MakeClean(u, x.value, io).c.bufs[id] == d.bufs[id]
      {
        MakeCleanOnly(u, x.value, io, id);
      }
    }
  }

  lemma UnclaimedRemains(c0: Cache, s: Client, io: Io)
    requires Sane(s, {}) && s.noSleep && Remains(c0, s.c)
    ensures HashInRange(s.c) && |s.marks| == |s.fate| && Remains(c0, GetUnclaimed(s, io).0.c)
  {
    hide Sane, Agree, TakeOut;
    TakeOutLeaves(s, Clean, IsClean(s.c.bufs, s.noSleep), io);
    var (t, x) := TakeOut(s, Clean, IsClean(s.c.bufs, s.noSleep), io);
    assert t.c.dirty == s.c.dirty;
    forall id | id in c0.clean.ring && id in c0.bufs && c0.bufs[id].reading
      ensures id in t.c.clean.ring
    {
      assert id in ListOf(s.c, Clean).ring && x != Some(id);
    }
    forall id | id in t.c.clean.ring
      ensures id in s.c.clean.ring && id in t.c.bufs && t.c.bufs[id] == s.c.bufs[id]
    {
      assert id in ListOf(t.c, Clean).ring;
    }
  }

  lemma FreeRemains(c0: Cache, s: Client, id: Id)
    requires id in s.c.bufs && !Listed(s.c, id) && Remains(c0, s.c)
    ensures Remains(c0, Free(s, id).c)
  {
    forall x | x in s.c.bufs && x != id
      ensures x in Free(s, id).c.bufs && Free(s, id).c.bufs[x] == s.c.bufs[x]
    {
      FreeLeaves(s, id, x);
    }
  }

  /** With nothing held and nothing being read, only an empty clean list has nothing to take. */
  lemma NoSleepFinds(s: Client, io: Io)
    requires Sane(s, {}) && Unheld(s.c) && s.noSleep && forall id :: id in s.c.clean.ring && id in s.c.bufs ==> !s.c.bufs[id].reading
    ensures HashInRange(s.c) && |s.marks| == |s.fate|
    ensures GetUnclaimed(s, io).1.None? ==> GetUnclaimed(s, io).0.c.clean.ring == []
  {
    hide Sane, Agree, TakeOut, Unheld;
    SaneParts(s, {});
    AgreeParts(s.c);
    forall id | id in s.c.clean.ring
      ensures IsClean(s.c.bufs, s.noSleep)(id) == Evict
    {
      CleanBits(s, id);
    }
    TakeOutFinds(s, Clean, IsClean(s.c.bufs, s.noSleep), io);
    TakeOutRest(s, Clean, IsClean(s.c.bufs, s.noSleep), io);
  }

  /** A round of a client that may not sleep leaves the dirty list alone, and finds nothing with
      buffers left on the clean list only if one of them is being read. */
  lemma RoundLeaves(s: Client, io: Io)
    requires Sane(s, {}) && s.noSleep
    ensures HashInRange(s.c) && |s.marks| == |s.fate|
    ensures FreeUnclaimed(s, io).0.c.dirty.ring == s.c.dirty.ring
    ensures Unheld(s.c) && !FreeUnclaimed(s, io).1 ==>
              (FreeUnclaimed(s, io).0.c.clean.ring == [] <==> NoneRead(FreeUnclaimed(s, io).0.c))
  {
    hide Sane, Agree, TakeOut, Unheld, Free;
    SaneParts(s, {});
    TakeOutLeaves(s, Clean, IsClean(s.c.bufs, s.noSleep), io);
    GetUnclaimedKeeps(s, io);
    var (t, x) := GetUnclaimed(s, io);
    if x.Some? {
      HandIn(t, x.value);
      FreeLists(t, x.value);
    } else {
      AgreeParts(s.c);
      if NoneRead(t.c) {
        forall id | id in s.c.clean.ring
          ensures !s.c.bufs[id].reading
        {
          assert id in ListOf(s.c, Clean).ring;
          assert id in ListOf(t.c, Clean).ring;
        }
        if Unheld(s.c) { NoSleepFinds(s, io); }
      }
    }
  }

  lemma FreeLists(s: Client, id: Id)
    requires id in s.c.bufs
    ensures Free(s, id).c.dirty == s.c.dirty && Free(s, id).c.clean == s.c.clean
  {}

  lemma {:induction false} DropRestLeaves(s: Client, io: nat -> Io, done: nat -> seq<(Id, bool)>, round: nat)
    requires Sane(s, {}) && s.noSleep
    ensures var r := DropRest(s, io, done, round);
            r.c.dirty.ring == s.c.dirty.ring && (Unheld(s.c) ==> (r.c.clean.ring == [] <==> NoneRead(r.c)))
    decreases Population(s.c)
  {
    hide Sane, FreeUnclaimed, Unheld, NoneRead, Population, Calmer;
    var c := CompleteAll(s, done(round));
    CompleteKeeps(s, done(round));
    CalmerCounts(s, c);
    FreeUnclaimedKeeps(c, io(round));
    RoundLeaves(c, io(round));
    var (t, more) := FreeUnclaimed(c, io(round));
    if more { DropRestLeaves(t, io, done, round + 1); }
  }

  lemma {:induction false} DropRestEmpties(s: Client, io: nat -> Io, done: nat -> seq<(Id, bool)>, round: nat)
    requires Sane(s, {}) && !s.noSleep && Unheld(s.c)
    ensures Population(DropRest(s, io, done, round).c) == 0
    decreases Population(s.c)
  {
    hide Sane, GetUnclaimed, Unheld, Free, Calmer;
    var c := CompleteAll(s, done(round));
    CompleteKeeps(s, done(round));
    CalmerCounts(s, c);
    FreeUnclaimedKeeps(c, io(round));
    var (t, more) := FreeUnclaimed(c, io(round));
    if more { DropRestEmpties(t, io, done, round + 1); } else { UnclaimedFinds(c, io(round)); }
  }

  /** With nothing held, and whatever I/O completes meanwhile, dropping the buffers empties the
      cache of a client that may sleep always, and of one that may not exactly when every buffer
      on the dirty list was idle and no read is still under way on the clean one at the end. */
  lemma DropEmptiesIff(s: Client, io: nat -> Io, done: nat -> seq<(Id, bool)>)
    requires Sane(s, {}) && Unheld(s.c)
    ensures Population(DropAll(s, io, done).c) == 0 <==> !s.noSleep || (DirtyIdle(s.c) && NoneRead(DropAll(s, io, done).c))
  {
    hide Sane, DropRest, Unheld, DirtyIdle, NoneRead, WriteAsync;
    SaneParts(s, {});
    WriteAsyncKeeps(s, false, io(0));
    WriteAsyncUnheld(s, false, io(0));
    var w := WriteAsync(s, false, io(0));
    if s.noSleep {
      MoveCleanEmptiesIff(s);
      WriteRemains(s, false, io(0));
      DropRestLeaves(w, io, done, 1);
    } else {
      DropRestEmpties(w, io, done, 1);
    }
  }

  /** What a client that may not sleep is left with, held or not: the dirty list as it was once
      the cleaned buffers had moved. */
  lemma NoSleepRemains(s: Client, io: nat -> Io, done: nat -> seq<(Id, bool)>)
    requires Sane(s, {}) && s.noSleep
    ensures Agree(s.c) && DropAll(s, io, done).c.dirty.ring == MoveClean(s).c.dirty.ring
  {
    hide Sane, DropRest, WriteAsync, MoveClean, NoneRead;
    SaneParts(s, {});
    WriteAsyncKeeps(s, false, io(0));
    WriteRemains(s, false, io(0));
    DropRestLeaves(WriteAsync(s, false, io(0)), io, done, 1);
  }

  /* ---------- if nothing completes meanwhile ---------- */

  lemma {:induction false} DropRestRemains(c0: Cache, s: Client, io: nat -> Io, done: nat -> seq<(Id, bool)>, round: nat)
    requires Sane(s, {}) && s.noSleep && Remains(c0, s.c) && forall n :: done(n) == []
    ensures Remains(c0, DropRest(s, io, done, round).c)
    decreases Population(s.c)
  {
    hide Sane, GetUnclaimed, Unheld, Remains, Free, Population, Calmer;
    SaneParts(s, {});
    assert CompleteAll(s, done(round)) == s;
    FreeUnclaimedKeeps(s, io(round));
    UnclaimedRemains(c0, s, io(round));
    var (t, more) := FreeUnclaimed(s, io(round));
    if more {
      var (u, b) := GetUnclaimed(s, io(round));
      GetUnclaimedKeeps(s, io(round));
      HandIn(u, b.value);
      FreeRemains(c0, u, b.value);
      DropRestRemains(c0, t, io, done, round + 1);
    }
  }

  /** Then a client that may not sleep is emptied exactly when every cached buffer was idle, and
      keeps every buffer that was being read. */
  lemma DropQuietIff(s: Client, io: nat -> Io, done: nat -> seq<(Id, bool)>)
    requires Sane(s, {}) && Unheld(s.c) && s.noSleep && forall n :: done(n) == []
    ensures Agree(s.c) && Remains(MoveClean(s).c, DropAll(s, io, done).c)
    ensures Population(DropAll(s, io, done).c) == 0 <==> AllQuiet(s.c)
  {
    hide Sane, DropRest, Unheld, AllQuiet, WriteAsync, NoneRead, DirtyIdle;
    SaneParts(s, {});
    WriteAsyncKeeps(s, false, io(0));
    WriteAsyncUnheld(s, false, io(0));
    var w := WriteAsync(s, false, io(0));
    MoveCleanIff(s);
    WriteRemains(s, false, io(0));
    DropRestRemains(MoveClean(s).c, w, io, done, 1);
    DropRestLeaves(w, io, done, 1);
    RemainsCount(MoveClean(s).c, DropAll(s, io, done).c);
  }

  /** What remains is nothing only if there was nothing to keep. */
  lemma RemainsCount(c0: Cache, c: Cache)
    requires Remains(c0, c)
    ensures Population(c) == 0 ==> AllClean(c0)
    ensures AllClean(c0) ==> NoneRead(c) && c.dirty.ring == []
  {}

  /** A client that may not sleep, with one unheld dirty buffer. */
  ghost const ONE_DIRTY := Client(
    Cache((b: Block) => 0, [map[0 := 0]], List([], {}, map[]), List([0], {}, map[]),
          map[0 := BLANK.(block := 0, mode := Dirty, dirty := true, dirtyEnd := 512)]),
    4096, true, 0, [], 0, {}, [Mark(0, 0, 0, 512)], [Owed], [], [])

  /** Such a client keeps the buffer through a drop, even if its write completes meanwhile. */
  lemma DirtyBufferStays(io: nat -> Io, done: nat -> seq<(Id, bool)>)
    ensures Sane(ONE_DIRTY, {}) && Unheld(ONE_DIRTY.c)
    ensures Population(DropAll(ONE_DIRTY, io, done).c) > 0
  {
    OneDirtySane();
    assert 0 in ONE_DIRTY.c.dirty.ring && !Quiet(ONE_DIRTY.c.bufs[0]);
    hide Sane, DropAll;
    DropEmptiesIff(ONE_DIRTY, io, done);
  }

  lemma OneDirtySane()
    ensures Sane(ONE_DIRTY, {}) && Unheld(ONE_DIRTY.c)
  {
    var c := ONE_DIRTY.c;
    assert forall b: Block :: Lookup(c, b) == if b == 0 then Some(0) else None;
    assert forall id :: Cached(c, id) <==> id == 0;
  }

  /** No buffer cached or in hand: the reserve is full. */
  lemma AllDropped(s: Client)
    requires Sane(s, {}) && s.hand == {} && s.c.clean.ring == [] && s.c.dirty.ring == []
    ensures s.need == 0 && |s.reserved| == s.requested
  {
    hide Agree, Bits, Marks, Logs;
    assert s.c.bufs.Keys <= Elements(s.reserved);
    ElementsCount(s.reserved);
    SubsetCount(s.c.bufs.Keys, Elements(s.reserved));
    assert |s.c.bufs| == |s.c.bufs.Keys|;
  }

  /* ---------- the client as the source keeps it ---------- */

  lemma CreatingAgrees(s: Client)
    requires Creating(s)
    ensures Agree(s.c)
  {
    hide Agree;
  }

  lemma SaneParts(s: Client, busy: set<Id>)
    requires Sane(s, busy)
    ensures Agree(s.c) && HashInRange(s.c) && |s.marks| == |s.fate|
  {
    hide NoDup, Sharded, Lookup;
  }

  class DmBufioClient {
    const cache: DmBufferCache
    const blockSize: nat
    const noSleep: bool
    const requested: nat
    var reserved: seq<Id>
    var need: nat
    ghost var hand: set<Id>
    ghost var marks: seq<Mark>
    ghost var fate: seq<Fate>
    ghost var submitted: seq<Submission>
    ghost var freed: seq<Buffer>

    ghost function State(): Client
      reads this, cache, cache.clean, cache.dirty
    {
      Client(cache.State(), blockSize, noSleep, requested, reserved, need, hand, marks, fate, submitted, freed)
    }

    ghost predicate Sound(busy: set<Id>)
      reads this, cache, cache.clean, cache.dirty
    {
      cache.Valid() && cache.noSleep == noSleep && Sane(State(), busy)
    }

    ghost predicate Valid()
      reads this, cache, cache.clean, cache.dirty
    {
      Sound({})
    }

    /** The client before its reserve is filled. */
    constructor Setup(hash: Block -> nat, numLocks: nat, blockSize: nat, noSleep: bool, requested: nat)
      requires numLocks > 0 && forall b: Block :: hash(b) < numLocks
      ensures cache.Valid() && cache.noSleep == noSleep && Creating(State()) && need == requested && cache.bufs == map[]
      ensures fresh(cache) && fresh(cache.clean) && fresh(cache.dirty)
      ensures this.blockSize == blockSize && this.noSleep == noSleep && this.requested == requested
    {
      this.blockSize, this.noSleep, this.requested := blockSize, noSleep, requested;
      reserved, need := [], requested;
      hand, marks, fate, submitted, freed := {}, [], [], [], [];
      cache := new DmBufferCache(hash, numLocks, noSleep);
    }

    /** dm_bufio_client_create; given are the buffers the allocator hands out. */
    static method Create(hash: Block -> nat, numLocks: nat, blockSize: nat, noSleep: bool, requested: nat, given: seq<Id>)
      returns (client: DmBufioClient?)
      requires numLocks > 0 && (forall b: Block :: hash(b) < numLocks) && NoDup(given)
      ensures client == null <==> blockSize == 0 || blockSize % SECTOR != 0 || |given| < requested
      ensures client != null ==>
                && fresh(client) && fresh(client.cache) && client.Valid() && Created(client.State())
                && client.blockSize == blockSize && client.requested == requested == |client.reserved|
    {
      hide Agree, FillOne;
      if blockSize == 0 || blockSize % SECTOR != 0 {
        return null;
      }
      var c := new DmBufioClient.Setup(hash, numLocks, blockSize, noSleep, requested);
      var n := 0;
      while c.need > 0
        invariant c.cache.Valid() && c.cache.noSleep == c.noSleep && Creating(c.State()) && n + c.need == requested && n <= |given|
        invariant forall x :: x in c.cache.bufs <==> x in given[..n]
        decreases c.need
      {
        if n == |given| {
          return null;
        }
        assert given[n] !in given[..n];
        c.FillReserve(given[n]);
        n := n + 1;
      }
      CreatedSane(c.State());
      return c;
    }

    /** alloc_buffer and __free_buffer_wake on the way to a full reserve. */
    method FillReserve(id: Id)
      requires cache.Valid() && cache.noSleep == noSleep && Creating(State()) && need > 0 && id !in cache.bufs
      modifies this, cache
      ensures cache.Valid() && cache.noSleep == noSleep && Creating(State()) && State() == FillOne(old(State()), id)
      ensures need == old(need) - 1 && forall x :: x in cache.bufs <==> x in old(cache.bufs) || x == id
    {
      hide Agree, Creating;
      FillKeeps(State(), id);
      assert Agree(FillOne(State(), id).c) by { CreatingAgrees(FillOne(State(), id)); }
      cache.bufs := cache.bufs[id := BLANK];
      hand := hand + {id};
      cache.bufs := cache.bufs[id := cache.bufs[id].(block := NO_BLOCK)];
      hand, freed := hand - {id}, freed + [cache.bufs[id]];
      reserved, need := [id] + reserved, need - 1;
    }

    /** read_endio. */
    method ReadEndio(id: Id, status: bool, ghost busy: set<Id>)
      requires Sound(busy) && id in cache.bufs && cache.bufs[id].reading
      modifies cache
      ensures Sound(busy) && State() == ReadEnd(old(State()), id, status)
    {
      hide Sane, Agree;
      ReadEndKeeps(State(), id, status, busy);
      SaneParts(ReadEnd(State(), id, status), busy);
      cache.bufs := cache.bufs[id := cache.bufs[id].(reading := false, readError := status)];
    }

    /** write_endio. */
    method WriteEndio(id: Id, status: bool, ghost busy: set<Id>)
      requires Sound(busy) && id in cache.bufs && cache.bufs[id].writing
      modifies cache
      ensures Sound(busy) && State() == WriteEnd(old(State()), id, status)
    {
      hide Sane, Agree;
      WriteEndKeeps(State(), id, status, busy);
      SaneParts(WriteEnd(State(), id, status), busy);
      cache.bufs := cache.bufs[id := cache.bufs[id].(writing := false, writeError := status)];
    }

    /** __write_dirty_buffer. */
    method WriteDirtyBuffer(id: Id, status: bool, ghost busy: set<Id>)
      requires Sound(busy) && id in cache.bufs && id !in cache.clean.ring && (Listed(cache.State(), id) || id in busy)
      modifies cache, this`fate, this`submitted
      ensures |old(marks)| == |old(fate)|
      ensures Sound(busy) && State() == WriteDirty(old(State()), id, status)
    {
      hide Sane, Agree;
      SaneParts(State(), busy);
      WriteDirtyKeeps(State(), id, status, busy);
      SaneParts(WriteDirty(State(), id, status), busy);
      var b := cache.bufs[id];
      if !b.dirty {
        return;
      }
      if b.writing {
        b := b.(writeError := status);
      }
      b := b.(dirty := false, writing := true, writeStart := b.dirtyStart, writeEnd := b.dirtyEnd);
      fate := SendAll(marks, fate, id, |submitted|);
      submitted := submitted + [Submission(id, b.block, b.writeStart, b.writeEnd)];
      cache.bufs := cache.bufs[id := b];
    }

    /** __make_buffer_clean. */
    method MakeBufferClean(id: Id, io: Io)
      requires Sound({id}) && id in cache.bufs && !Listed(cache.State(), id) && cache.bufs[id].hold == 0
      modifies cache, this`fate, this`submitted
      ensures |old(marks)| == |old(fate)|
      ensures Valid() && State() == MakeClean(old(State()), id, io)
    {
      hide Sane, Agree, WriteDirty;
      SaneParts(State(), {id});
      MakeCleanKeeps(State(), id, io);
      if Quiet(cache.bufs[id]) {
        return;
      }
      if cache.bufs[id].reading {
        ReadEndio(id, io.read, {id});
      }
      WriteDirtyBuffer(id, io.earlier(id), {id});
      if cache.bufs[id].writing {
        WriteEndio(id, io.last, {id});
      }
    }

    /** cache_evict and __make_buffer_clean. */
    method EvictClean(m: Mode, pred: Id -> Verdict, io: Io) returns (r: Option<Id>)
      requires Valid()
      modifies this, cache, cache.clean, cache.dirty
      ensures HashInRange(old(cache.State())) && |old(marks)| == |old(fate)|
      ensures Valid() && (State(), r) == TakeOut(old(State()), m, pred, io) && (r.Some? ==> r.value in hand)
    {
      hide Sane, Agree, CacheEvict, MakeClean, Matches;
      SaneParts(State(), {});
      EvictedKeeps(State(), m, pred);
      TakeOutKeeps(State(), m, pred, io);
      ghost var s := State();
      r := cache.EvictOne(m, pred);
      if r.Some? {
        hand := hand + {r.value};
        assert cache.bufs[r.value].hold == 0 by { MatchHold(s.c, m, pred, r.value); }
        MakeBufferClean(r.value, io);
      }
    }

    /** __get_unclaimed_buffer. */
    method GetUnclaimedBuffer(io: Io) returns (r: Option<Id>)
      requires Valid()
      modifies this, cache, cache.clean, cache.dirty
      ensures HashInRange(old(cache.State())) && |old(marks)| == |old(fate)|
      ensures Valid() && (State(), r) == GetUnclaimed(old(State()), io) && (r.Some? ==> r.value in hand)
    {
      hide Sane, Agree, TakeOut;
      SaneParts(State(), {});
      r := EvictClean(Clean, IsClean(cache.bufs, noSleep), io);
      if r.Some? || noSleep {
        return;
      }
      r := EvictClean(Dirty, IsDirty(cache.bufs), io);
    }

    /** One pass of __alloc_buffer_wait_no_callback. */
    method AllocBufferOnce(given: Option<Id>, nf: Flag, io: Io) returns (r: Option<Id>)
      requires Valid() && (given.Some? ==> given.value !in cache.bufs)
      modifies this, cache, cache.clean, cache.dirty
      ensures HashInRange(old(cache.State())) && |old(marks)| == |old(fate)|
      ensures Valid() && (State(), r) == AllocBuffer(old(State()), given, nf, io) && (r.Some? ==> r.value in hand)
    {
      hide Sane, Agree, GetUnclaimed;
      SaneParts(State(), {});
      AllocKeeps(State(), given, nf, io);
      SaneParts(AllocBuffer(State(), given, nf, io).0, {});
      if given.Some? {
        cache.bufs := cache.bufs[given.value := BLANK];
        hand := hand + {given.value};
        return given;
      }
      if nf == Prefetch {
        return None;
      }
      if reserved != [] {
        r := Some(reserved[0]);
        hand := hand + {reserved[0]};
        reserved, need := reserved[1..], need + 1;
        return;
      }
      r := GetUnclaimedBuffer(io);
    }

    /** __free_buffer_wake. */
    method FreeBufferWake(id: Id)
      requires Valid() && id in hand
      modifies this, cache
      ensures id in old(cache.bufs) && Valid() && State() == Free(old(State()), id)
    {
      hide Sane, Agree;
      HandIn(State(), id);
      FreeKeeps(State(), id);
      SaneParts(Free(State(), id), {});
      var b := cache.bufs[id].(block := NO_BLOCK);
      hand, freed := hand - {id}, freed + [b];
      if need == 0 {
        cache.bufs := cache.bufs - {id};
      } else {
        cache.bufs := cache.bufs[id := b];
        reserved, need := [id] + reserved, need - 1;
      }
    }

    /** __write_dirty_buffers_async. */
    method WriteDirtyBuffersAsync(noWait: bool, io: Io)
      requires Valid()
      modifies this, cache, cache.clean, cache.dirty
      ensures Agree(old(cache.State())) && |old(marks)| == |old(fate)|
      ensures Valid() && State() == WriteAsync(old(State()), noWait, io)
    {
      hide Sane, Agree, WriteDirty, MoveAll;
      SaneParts(State(), {});
      MoveCleanKeeps(State());
      cache.MarkMany(Dirty, Clean, Cleaned(cache.bufs));
      ghost var t := State();
      SaneParts(t, {});
      AgreeParts(t.c);
      var ids := cache.dirty.ring;
      WriteThese(ids, noWait, io);
    }

    /** cache_iterate with write_one. */
    method WriteThese(ids: seq<Id>, noWait: bool, io: Io)
      requires Valid() && forall i :: 0 <= i < |ids| ==> ids[i] in cache.bufs && ids[i] in cache.dirty.ring
      modifies cache, this`fate, this`submitted
      ensures |old(marks)| == |old(fate)|
      ensures Valid() && State() == WriteEach(old(State()), ids, noWait, io)
    {
      hide Sane, Agree, WriteDirty;
      SaneParts(State(), {});
      ghost var s := State();
      var i := 0;
      while i < |ids| && !(noWait && cache.bufs[ids[i]].writing)
        invariant i <= |ids| && Valid() && |marks| == |fate| && Still(s, State())
        invariant WriteEach(s, ids, noWait, io) == WriteEach(State(), ids[i..], noWait, io)
      {
        LookupIsPlainMap(cache.State(), cache.bufs[ids[i]].block, ids[i]);
        assert ids[i..][1..] == ids[i + 1..];
        WriteDirtyBuffer(ids[i], io.earlier(ids[i]), {});
        i := i + 1;
      }
    }

    /** __check_watermark. */
    method CheckWatermarkNow(io: Io)
      requires Valid()
      modifies this, cache, cache.clean, cache.dirty
      ensures Agree(old(cache.State())) && |old(marks)| == |old(fate)|
      ensures Valid() && State() == CheckWatermark(old(State()), io)
    {
      hide Sane, Agree, WriteAsync;
      SaneParts(State(), {});
      if cache.dirty.count > cache.clean.count * WRITEBACK_RATIO {
        WriteDirtyBuffersAsync(true, io);
      }
    }

    /** found_buffer. */
    method FoundBuffer(id: Id, nf: Flag) returns (r: Option<Id>)
      requires Valid() && id in cache.bufs && cache.bufs[id].hold > 0
      modifies cache
      ensures Valid() && (State(), r) == Found(old(State()), id, nf)
    {
      hide Sane, Agree;
      FoundKeeps(State(), id, nf);
      if nf == Prefetch || (nf == Get && cache.bufs[id].reading) {
        var last := cache.Put(id);
        return None;
      }
      return Some(id);
    }

    /** The fast path of new_read. */
    method NewReadFast(block: Block, nf: Flag) returns (r: Option<Id>)
      requires Valid()
      modifies cache, cache.clean, cache.dirty
      ensures HashInRange(old(cache.State()))
      ensures Lookup(old(cache.State()), block).Some? ==> Lookup(old(cache.State()), block).value in old(cache.bufs)
      ensures Valid() && (State(), r) == FastPath(old(State()), block, nf)
    {
      hide Sane, Agree, Lookup;
      SaneParts(State(), {});
      GetKeeps(State(), block);
      r := cache.Get(block);
      if r.Some? {
        r := FoundBuffer(r.value, nf);
      }
    }

    /** __bufio_new, once it has its buffer. */
    method BufioNew(id: Id, block: Block, nf: Flag, io: Io) returns (r: Option<Id>)
      requires Valid() && id in hand && nf != Get
      modifies this, cache, cache.clean, cache.dirty
      ensures Agree(old(cache.State())) && |old(marks)| == |old(fate)| && id in old(cache.bufs) && !Listed(old(cache.State()), id)
      ensures Valid() && (State(), r) == Enter(old(State()), id, block, nf, io)
    {
      hide Sane, Agree, Lookup, Free, CheckWatermark, Listed, CacheInsert;
      ghost var s := State();
      SaneParts(s, {});
      EnterKeeps(s, id, block, nf, io);
      GetKeeps(s, block);
      GetIs(s.c, block, id);
      r := cache.Get(block);
      if r.Some? {
        FreeLeaves(State(), id, r.value);
        FreeBufferWake(id);
        r := FoundBuffer(r.value, nf);
        return;
      }
      CheckWatermarkNow(io);
      WatermarkKeeps(s, io);
      SameLookup(s.c, cache.State());
      InsertPrepared(id, block, nf);
      return Some(id);
    }

    /** The buffer is prepared and inserted. */
    method InsertPrepared(id: Id, block: Block, nf: Flag)
      requires Valid() && id in hand && id in cache.bufs && cache.hash(block) < |cache.trees| && Lookup(cache.State(), block).None?
      modifies this, cache, cache.clean, cache.dirty
      ensures var u := WithBuffer(old(State()), id, Prepared(old(cache.bufs)[id], block, nf));
              State() == u.(c := CacheInsert(u.c, id).0, hand := u.hand - {id})
      ensures Valid()
    {
      hide Sane, Agree, Lookup, Listed, CacheInsert;
      ghost var s := State();
      SaneParts(s, {});
      HandIn(s, id);
      EnteredKeeps(s, id, block, nf);
      cache.bufs := cache.bufs[id := Prepared(cache.bufs[id], block, nf)];
      OffListAgrees(s.c, cache.State()) by { AgreeParts(s.c); ListedIn(s.c, id); }
      assert !Listed(cache.State(), id) by { ListedSame(s.c, cache.State(), id); }
      var inserted := cache.Insert(id);
      hand := hand - {id};
    }

    /** cache_remove and __free_buffer_wake, or cache_put_and_wake. */
    method RemoveOrPutBuffer(id: Id, unwanted: bool)
      requires Valid() && Listed(cache.State(), id) && id in cache.bufs && cache.bufs[id].hold > 0 && (unwanted ==> Quiet(cache.bufs[id]))
      modifies this, cache, cache.clean, cache.dirty
      ensures cache.hash(old(cache.bufs)[id].block) < |old(cache.trees)| && id in ListOf(old(cache.State()), old(cache.bufs)[id].mode).ring
      ensures Valid() && State() == RemoveOrPut(old(State()), id, unwanted)
    {
      hide Sane, Agree, Free, Unlink;
      RemoveOrPutKeeps(State(), id, unwanted);
      if unwanted {
        RemovedKeeps(State(), id);
        var removed := cache.Remove(id);
        if removed {
          hand := hand + {id};
          FreeBufferWake(id);
          return;
        }
      }
      HoldKeeps(State(), id, cache.bufs[id].hold - 1);
      var last := cache.Put(id);
    }

    /** dm_bufio_release. */
    method ReleaseHeld(id: Id)
      requires Valid() && Listed(cache.State(), id) && id in cache.bufs && cache.bufs[id].hold > 0
      modifies this, cache, cache.clean, cache.dirty
      ensures cache.hash(old(cache.bufs)[id].block) < |old(cache.trees)| && id in ListOf(old(cache.State()), old(cache.bufs)[id].mode).ring
      ensures Valid() && State() == ReleaseBuffer(old(State()), id)
    {
      hide Sane, Agree, RemoveOrPut;
      var b := cache.bufs[id];
      RemoveOrPutBuffer(id, (b.readError || b.writeError) && Quiet(b));
    }

    /** dm_bufio_mark_partial_buffer_dirty. */
    method MarkPartialBufferDirty(id: Id, start: nat, end: nat)
      requires Valid() && Listed(cache.State(), id) && id in cache.bufs && !cache.bufs[id].reading && start < end <= blockSize
      modifies this, cache, cache.clean, cache.dirty
      ensures id in ListOf(old(cache.State()), old(cache.bufs)[id].mode).ring
      ensures Valid() && State() == MarkDirty(old(State()), id, start, end)
    {
      hide Sane, Agree, CacheMark, NoDup;
      ghost var s := State();
      SaneParts(s, {});
      MarkDirtyKeeps(s, id, start, end);
      SaneParts(MarkDirty(s, id, start, end), {});
      var b := cache.bufs[id];
      marks, fate := marks + [Mark(id, b.block, start, end)], fate + [Owed];
      if !b.dirty {
        cache.bufs := cache.bufs[id := b.(dirty := true, dirtyStart := start, dirtyEnd := end)];
        FieldsAgree(s.c, cache.State(), id);
        cache.Mark(id, Dirty);
      } else {
        if start < b.dirtyStart {
          b := b.(dirtyStart := start);
        }
        if end > b.dirtyEnd {
          b := b.(dirtyEnd := end);
        }
        cache.bufs := cache.bufs[id := b];
      }
    }

    /** dm_bufio_write_dirty_buffers for one buffer it waited for. */
    method SettleHeld(id: Id)
      requires Valid() && Listed(cache.State(), id) && id in cache.bufs && cache.bufs[id].hold > 0
      modifies cache, cache.clean, cache.dirty
      ensures id in ListOf(old(cache.State()), old(cache.bufs)[id].mode).ring
      ensures Valid() && State() == Settled(old(State()), id)
    {
      hide Sane, Agree, CacheMark;
      ghost var s := State();
      SaneParts(s, {});
      SettledKeeps(s, id);
      SaneParts(Settled(s, id), {});
      var b := cache.bufs[id];
      if !b.dirty && !b.writing {
        MarkKeeps(s, id, Clean);
        MarkHolds(s.c, id, Clean);
        cache.Mark(id, Clean);
      }
      var last := cache.Put(id);
    }

    /** forget_buffer. */
    method ForgetBuffer(block: Block)
      requires Valid()
      modifies this, cache, cache.clean, cache.dirty
      ensures HashInRange(old(cache.State()))
      ensures Lookup(old(cache.State()), block).Some? ==>
                var id := Lookup(old(cache.State()), block).value;
                id in old(cache.bufs) && old(cache.bufs)[id].block == block && id in ListOf(old(cache.State()), old(cache.bufs)[id].mode).ring
      ensures Valid() && State() == ForgetBlock(old(State()), block)
    {
      hide Sane, Agree, Lookup, RemoveOrPut;
      ForgetKeeps(State(), block);
      GetKeeps(State(), block);
      var r := cache.Get(block);
      if r.Some? {
        RemoveOrPutBuffer(r.value, Quiet(cache.bufs[r.value]));
      }
    }

    /** dm_bufio_forget_buffers: every idle, unheld buffer in the range is freed, and no other. */
    method ForgetBuffers(begin: Block, end: Block) returns (out: seq<Id>, ghost d: Cache)
      requires Valid() && !noSleep
      modifies this, cache, cache.clean, cache.dirty
      ensures Allowed(old(State()), ForgetRange(begin, end, d, out))
      ensures forall id :: id in out <==> InRange(old(cache.State()), id, begin, end, Idle(old(cache.bufs)))
      ensures Valid() && State() == ForgetAll(old(State()), d, out)
    {
      hide Sane, Agree, Dropped, InRange, FreeAll;
      ghost var s := State();
      SaneParts(s, {});
      out := cache.RemoveRange(begin, end, Idle(cache.bufs));
      d := cache.State();
      hand := hand + Elements(out);
      ForgottenKeeps(s, d, out, begin, end);
      FreeThese(out);
    }

    method FreeThese(out: seq<Id>)
      requires Valid() && NoDup(out) && forall id :: id in out ==> id in hand
      modifies this, cache
      ensures Valid() && State() == FreeAll(old(State()), out)
    {
      hide Sane, Agree, Free;
      ghost var s := State();
      for i := 0 to |out|
        invariant Valid() && FreeAll(s, out) == FreeAll(State(), out[i..]) && forall j :: i <= j < |out| ==> out[j] in hand
        invariant cache.clean.State() == s.c.clean && cache.dirty.State() == s.c.dirty
      {
        assert out[i..][1..] == out[i + 1..];
        FreeKeeps(State(), out[i]);
        HandIn(State(), out[i]);
        FreeBufferWake(out[i]);
      }
    }

    /** cache_evict, __make_buffer_clean and __free_buffer_wake, as in __scan and __evict_many. */
    method ReclaimBuffer(m: Mode, pred: Id -> Verdict, io: Io) returns (found: bool)
      requires Valid()
      modifies this, cache, cache.clean, cache.dirty
      ensures HashInRange(old(cache.State())) && |old(marks)| == |old(fate)|
      ensures Valid() && State() == ReclaimOne(old(State()), m, pred, io)
      ensures found == TakeOut(old(State()), m, pred, io).1.Some?
    {
      hide Sane, Agree, TakeOut, Free;
      var r := EvictClean(m, pred, io);
      if r.Some? {
        FreeBufferWake(r.value);
      }
      return r.Some?;
    }

    /** drop_buffers: if nothing is held, nothing stays cached and the reserve is full again,
        exactly when the client may sleep, or every buffer on the dirty list was idle and no read
        is still under way at the end. */
    method DropBuffers(io: nat -> Io, done: nat -> seq<(Id, bool)>)
      requires Valid()
      modifies this, cache, cache.clean, cache.dirty
      ensures Valid() && State() == DropAll(old(State()), io, done) && hand == old(hand)
      ensures Unheld(old(cache.State())) ==>
                (cache.clean.ring == [] && cache.dirty.ring == [] <==>
                 !noSleep || (DirtyIdle(old(cache.State())) && NoneRead(cache.State())))
      ensures cache.clean.ring == [] && cache.dirty.ring == [] && old(hand) == {} ==> need == 0 && |reserved| == requested
    {
      hide Sane, Agree, WriteAsync, FreeUnclaimed, Unheld, DirtyIdle, NoneRead, Calmer;
      ghost var s := State();
      SaneParts(s, {});
      WriteAsyncKeeps(s, false, io(0));
      WriteDirtyBuffersAsync(false, io(0));
      ghost var w := State();
      var round, more := 1, true;
      while more
        invariant Valid() && DropRest(w, io, done, 1) == if more then DropRest(State(), io, done, round) else State()
        invariant noSleep == s.noSleep
        decreases more, Population(cache.State())
      {
        ghost var c := CompleteAll(State(), done(round));
        CompleteKeeps(State(), done(round));
        CalmerCounts(State(), c);
        CompleteThese(done(round));
        FreeUnclaimedKeeps(State(), io(round));
        more := FreeNext(io(round));
        round := round + 1;
      }
      if Unheld(s.c) { DropEmptiesIff(s, io, done); }
      if cache.clean.ring == [] && cache.dirty.ring == [] && s.hand == {} { AllDropped(State()); }
    }

    /** Completions that come in. */
    method CompleteThese(done: seq<(Id, bool)>)
      requires Valid()
      modifies cache
      ensures Valid() && State() == CompleteAll(old(State()), done)
    {
      hide Sane, Agree;
      ghost var s := State();
      for i := 0 to |done|
        invariant Valid() && CompleteAll(s, done) == CompleteAll(State(), done[i..])
      {
        var (id, status) := done[i];
        assert done[i..][1..] == done[i + 1..];
        if id in cache.bufs && cache.bufs[id].reading {
          ReadEndio(id, status, {});
        } else if id in cache.bufs && cache.bufs[id].writing {
          WriteEndio(id, status, {});
        }
      }
    }

    /** One round of the loop. */
    method FreeNext(io: Io) returns (more: bool)
      requires Valid()
      modifies this, cache, cache.clean, cache.dirty
      ensures HashInRange(old(cache.State())) && |old(marks)| == |old(fate)|
      ensures Valid() && (State(), more) == FreeUnclaimed(old(State()), io)
    {
      hide Sane, Agree, GetUnclaimed, Free;
      SaneParts(State(), {});
      FreeUnclaimedKeeps(State(), io);
      var b := GetUnclaimedBuffer(io);
      if b.Some? {
        HandIn(State(), b.value);
        FreeBufferWake(b.value);
      }
      return b.Some?;
    }
  }

  lemma HandIn(s: Client, id: Id)
    requires Sane(s, {}) && id in s.hand
    ensures id in s.c.bufs && !Listed(s.c, id)
  {
    hide Agree;
  }

  lemma ListedIn(c: Cache, id: Id)
    requires Agree(c)
    ensures forall x :: Listed(c, x) ==> x in c.bufs
  {
    hide Agree, NoDup;
    AgreeParts(c);
  }

  lemma ListedSame(c: Cache, d: Cache, id: Id)
    requires d == c.(bufs := d.bufs) && !Listed(c, id)
    ensures !Listed(d, id)
  {}

  /** Finding a block is finding another buffer than one off the lists. */
  lemma GetIs(c: Cache, block: Block, id: Id)
    requires Agree(c) && !Listed(c, id)
    ensures HashInRange(c) && (Lookup(c, block).Some? ==> Lookup(c, block).value in c.bufs && Lookup(c, block).value != id)
  {
    hide Agree, NoDup, Lookup;
    AgreeParts(c);
    GetAgrees(c, block);
    if Lookup(c, block).Some? { LookupIsPlainMap(c, block, Lookup(c, block).value); }
  }

  lemma FreeLeaves(s: Client, id: Id, x: Id)
    requires id in s.c.bufs && x in s.c.bufs && x != id
    ensures x in Free(s, id).c.bufs && Free(s, id).c.bufs[x] == s.c.bufs[x]
  {}

  lemma MarkHolds(c: Cache, id: Id, m: Mode)
    requires id in c.bufs && id in ListOf(c, c.bufs[id].mode).ring
    ensures id in CacheMark(c, id, m).bufs && CacheMark(c, id, m).bufs[id].hold == c.bufs[id].hold
  {}

  lemma MatchHold(c: Cache, m: Mode, pred: Id -> Verdict, id: Id)
    requires Matches(c, m, pred, id)
    ensures id in c.bufs && c.bufs[id].hold == 0
  {}
}