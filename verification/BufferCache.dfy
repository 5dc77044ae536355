/** The buffer cache of md/dm-bufio.c: buffers indexed by block in hashed trees and, at the
    same time, kept on the clean or the dirty clock list.

    The cache as a value takes a tree as the map from block to buffer that it holds; the class
    keeps the search trees themselves. */
module BufferCache {
  import opened Collections
  import opened Lru
  import BlockTree

  type Block = nat

  datatype Mode = Clean | Dirty

  /** struct dm_buffer. */
  datatype Buffer = Buffer(block: Block, hold: nat, mode: Mode, reading: bool, writing: bool, dirty: bool,
                           dirtyStart: nat, dirtyEnd: nat, writeStart: nat, writeEnd: nat,
                           readError: bool, writeError: bool)

  /** struct dm_buffer_cache, and all buffers that exist, cached or not. */
  datatype Cache = Cache(hash: Block -> nat, trees: seq<map<Block, Id>>, clean: List, dirty: List, bufs: map<Id, Buffer>)

  ghost predicate HashInRange(c: Cache) { forall b: Block :: c.hash(b) < |c.trees| }

  /** __cache_get. */
  function Lookup(c: Cache, b: Block): (r: Option<Id>)
    requires c.hash(b) < |c.trees|
  {
    var t := c.trees[c.hash(b)];
    if b in t then Some(t[b]) else None
  }

  function ListOf(c: Cache, m: Mode): (l: List) { if m == Clean then c.clean else c.dirty }

  function WithList(c: Cache, m: Mode, l: List): (r: Cache) { if m == Clean then c.(clean := l) else c.(dirty := l) }

  /** The buffer is found under its own block number. */
  ghost predicate Cached(c: Cache, id: Id)
    requires HashInRange(c)
  {
    id in c.bufs && Lookup(c, c.bufs[id].block) == Some(id)
  }

  ghost predicate Listed(c: Cache, id: Id) { id in c.clean.ring || id in c.dirty.ring }

  /** Each tree holds only the blocks that hash to it. */
  ghost predicate Sharded(c: Cache) {
    forall l, b :: 0 <= l < |c.trees| && b in c.trees[l] ==> c.hash(b) == l
  }

  /** Trees and lists agree: what the trees find is exactly what the lists hold, each buffer
      under its own block and on the list its mode names, once. */
  ghost predicate Agree(c: Cache) {
    && HashInRange(c) && Sharded(c) && NoDup(c.clean.ring) && NoDup(c.dirty.ring)
    && (forall b: Block :: Lookup(c, b).Some? ==> Lookup(c, b).value in c.bufs && c.bufs[Lookup(c, b).value].block == b)
    && (forall id :: Cached(c, id) <==> Listed(c, id))
    && (forall id :: id in c.clean.ring ==> id in c.bufs && c.bufs[id].mode == Clean)
    && (forall id :: id in c.dirty.ring ==> id in c.bufs && c.bufs[id].mode == Dirty)
  }

  /** The cache is a plain map from block to buffer. */
  lemma LookupIsPlainMap(c: Cache, b: Block, id: Id)
    requires Agree(c)
    ensures Lookup(c, b) == Some(id) <==> Listed(c, id) && id in c.bufs && c.bufs[id].block == b
    ensures !(id in c.clean.ring && id in c.dirty.ring)
  {
    if Lookup(c, b) == Some(id) { assert Cached(c, id); }
    if Listed(c, id) { assert Cached(c, id); }
  }

  /** Block numbers of cached buffers are unique. */
  lemma BlocksUnique(c: Cache, i: Id, j: Id)
    requires Agree(c) && Listed(c, i) && Listed(c, j) && c.bufs[i].block == c.bufs[j].block
    ensures i == j
  {
    LookupIsPlainMap(c, c.bufs[i].block, i);
    LookupIsPlainMap(c, c.bufs[j].block, j);
  }

  /* ---------- trees ---------- */

  function TreeSet(c: Cache, b: Block, id: Id): (r: Cache)
    requires c.hash(b) < |c.trees|
  {
    var t: map<Block, Id> := c.trees[c.hash(b)][b := id];
    c.(trees := c.trees[c.hash(b) := t])
  }

  function TreeErase(c: Cache, b: Block): (r: Cache)
    requires c.hash(b) < |c.trees|
  {
    c.(trees := c.trees[c.hash(b) := c.trees[c.hash(b)] - {b}])
  }

  /** d's trees are c's, except that block b now finds r. */
  ghost predicate Refiled(c: Cache, d: Cache, b: Block, r: Option<Id>)
    requires HashInRange(c)
  {
    && HashInRange(d) && (Sharded(c) ==> Sharded(d))
    && forall x: Block :: Lookup(d, x) == if x == b then r else Lookup(c, x)
  }

  lemma TreeSetRefiles(c: Cache, b: Block, id: Id, d: Cache)
    requires HashInRange(c) && d.hash == c.hash && d.trees == TreeSet(c, b, id).trees
    ensures Refiled(c, d, b, Some(id))
  {}

  lemma TreeEraseRefiles(c: Cache, b: Block, d: Cache)
    requires HashInRange(c) && d.hash == c.hash && d.trees == TreeErase(c, b).trees
    ensures Refiled(c, d, b, None)
  {}

  lemma SameRefiles(c: Cache, b: Block, d: Cache)
    requires HashInRange(c) && d.hash == c.hash && d.trees == c.trees
    ensures Refiled(c, d, b, Lookup(c, b))
  {}

  /* ---------- the operations ---------- */

  /** cache_insert: false if the block is already cached. */
  function CacheInsert(c: Cache, id: Id): (r: (Cache, bool))
    requires id in c.bufs && c.hash(c.bufs[id].block) < |c.trees|
  {
    var b := c.bufs[id];
    if Lookup(c, b.block).Some? then (c, false)
    else (WithList(TreeSet(c, b.block, id), b.mode, Insert(ListOf(c, b.mode), id)), true)
  }

  /** cache_get: finding a buffer takes a hold on it and references it. */
  function CacheGet(c: Cache, block: Block): (r: (Cache, Option<Id>))
    requires c.hash(block) < |c.trees|
    requires Lookup(c, block).Some? ==> Lookup(c, block).value in c.bufs
  {
    match Lookup(c, block)
    case None => (c, None)
    case Some(id) =>
      var b := c.bufs[id];
      var l := ListOf(c, b.mode);
      (WithList(c, b.mode, l.(referenced := l.referenced + {id})).(bufs := c.bufs[id := b.(hold := b.hold + 1)]), Some(id))
  }

  /** The buffer leaves its tree and its list. */
  function Unlink(c: Cache, id: Id): (r: Cache)
    requires id in c.bufs && c.hash(c.bufs[id].block) < |c.trees| && id in ListOf(c, c.bufs[id].mode).ring
  {
    var b := c.bufs[id];
    WithList(TreeErase(c, b.block), b.mode, Remove(ListOf(c, b.mode), id))
  }

  /** The buffer moves to the other list, or stays. */
  function CacheMark(c: Cache, id: Id, m: Mode): (r: Cache)
    requires id in c.bufs && id in ListOf(c, c.bufs[id].mode).ring
  {
    var b := c.bufs[id];
    if b.mode == m then c
    else
      var d := WithList(c, b.mode, Remove(ListOf(c, b.mode), id));
      WithList(d, m, Insert(ListOf(d, m), id)).(bufs := c.bufs[id := b.(mode := m)])
  }

  /** __evict_pred: the client's predicate, but never for a held buffer. */
  function Guarded(bufs: map<Id, Buffer>, pred: Id -> Verdict): (p: Id -> Verdict) {
    (id: Id) => if id in bufs && bufs[id].hold > 0 then DontEvict else pred(id)
  }

  /** __cache_evict: an unheld buffer that passes leaves the cache. */
  ghost function CacheEvict(c: Cache, m: Mode, pred: Id -> Verdict): (r: (Cache, Option<Id>))
    requires HashInRange(c)
    ensures r.0.hash == c.hash && |r.0.trees| == |c.trees| && r.0.bufs == c.bufs && (r.1.Some? ==> r.1.value in c.bufs)
  {
    var (l, x) := EvictSpec(ListOf(c, m), Guarded(c.bufs, pred));
    var d := WithList(c, m, l);
    if x.Some? && x.value in c.bufs then (TreeErase(d, c.bufs[x.value].block), x) else (d, None)
  }

  /** One round of __cache_mark_many: the next match moves to the other list. */
  ghost function MoveOne(c: Cache, from: Mode, to: Mode, pred: Id -> Verdict): (r: (Cache, Option<Id>)) {
    var (l, x) := EvictSpec(ListOf(c, from), Guarded(c.bufs, pred));
    var d := WithList(c, from, l);
    if x.Some? && x.value in c.bufs then
      (WithList(d, to, Insert(ListOf(d, to), x.value)).(bufs := c.bufs[x.value := c.bufs[x.value].(mode := to)]), x)
    else (d, None)
  }

  /** __cache_mark_many: rounds until one finds nothing. */
  ghost function MoveAll(c: Cache, from: Mode, to: Mode, pred: Id -> Verdict): (r: Cache)
    requires Agree(c) && from != to
    ensures Agree(r) && r.hash == c.hash && r.trees == c.trees && r.bufs.Keys == c.bufs.Keys
    decreases |ListOf(c, from).ring|
  {
    MoveAgrees(c, from, to, pred);
    var (d, x) := MoveOne(c, from, to, pred);
    if x.None? then d else MoveAll(d, from, to, pred)
  }

  /* ---------- each operation keeps the agreement ---------- */

  /** The lists hold the same buffers, but for r. */
  ghost predicate SameButFor(c: Cache, d: Cache, r: Option<Id>) {
    forall x :: r != Some(x) ==> (x in d.clean.ring <==> x in c.clean.ring) && (x in d.dirty.ring <==> x in c.dirty.ring)
  }

  /** Every change to the cache is of one form: buffer id is refiled under its block and put on
      one list, taken off the lists, or moved; everything else stays. */
  lemma OneBuffer(c: Cache, d: Cache, id: Id, on: Option<Mode>)
    requires Agree(c) && id in c.bufs && id in d.bufs
    requires d.bufs == c.bufs[id := d.bufs[id]] && d.bufs[id].block == c.bufs[id].block
    requires on.Some? ==> d.bufs[id].mode == on.value
    requires Refiled(c, d, c.bufs[id].block, if on.Some? then Some(id) else None)
    requires Listed(c, id) || Lookup(c, c.bufs[id].block).None?
    requires NoDup(d.clean.ring) && NoDup(d.dirty.ring)
    requires forall x :: x in d.clean.ring <==> if x == id then on == Some(Clean) else x in c.clean.ring
    requires forall x :: x in d.dirty.ring <==> if x == id then on == Some(Dirty) else x in c.dirty.ring
    ensures Agree(d)
  {
    hide NoDup, Sharded, Lookup;
    forall x
      ensures Cached(d, x) <==> Listed(d, x)
    {
      assert Cached(c, x) <==> Listed(c, x);
      if x != id && x in c.bufs && c.bufs[x].block == c.bufs[id].block {
        if Listed(c, id) { assert Cached(c, id); }
      }
    }
    forall b: Block | Lookup(d, b).Some?
      ensures Lookup(d, b).value in d.bufs && d.bufs[Lookup(d, b).value].block == b
    {}
  }

  lemma InsertAgrees(c: Cache, id: Id)
    requires Agree(c) && id in c.bufs && !Listed(c, id)
    ensures Agree(CacheInsert(c, id).0)
    ensures CacheInsert(c, id).1 <==> forall i :: Listed(c, i) ==> c.bufs[i].block != c.bufs[id].block
  {
    hide NoDup, Lookup, Agree, Sharded;
    AgreeParts(c);
    var b, d := c.bufs[id], CacheInsert(c, id).0;
    LookupBlock(c, b.block);
    if Lookup(c, b.block).None? {
      TreeSetRefiles(c, b.block, id, d);
      PushNoDup(ListOf(c, b.mode).ring, id);
      OneBuffer(c, d, id, Some(b.mode));
    }
  }

  lemma AgreeParts(c: Cache)
    requires Agree(c)
    ensures HashInRange(c) && NoDup(c.clean.ring) && NoDup(c.dirty.ring)
    ensures forall id :: Listed(c, id) ==> id in c.bufs && Lookup(c, c.bufs[id].block) == Some(id)
    ensures forall id :: id in c.clean.ring ==> c.bufs[id].mode == Clean
    ensures forall id :: id in c.dirty.ring ==> c.bufs[id].mode == Dirty
  {
    hide NoDup, Lookup, Sharded;
    forall id | Listed(c, id)
      ensures id in c.bufs && Lookup(c, c.bufs[id].block) == Some(id)
    {
      assert Cached(c, id);
    }
  }

  lemma LookupBlock(c: Cache, b: Block)
    requires Agree(c)
    ensures Lookup(c, b).None? <==> forall i :: Listed(c, i) ==> c.bufs[i].block != b
  {
    hide Lookup, NoDup, Sharded;
    forall i
      ensures Lookup(c, b) == Some(i) <==> Listed(c, i) && c.bufs[i].block == b
    {
      LookupIsPlainMap(c, b, i);
    }
    if Lookup(c, b).Some? { assert Listed(c, Lookup(c, b).value); }
  }

  /** Changing fields of a buffer other than its block and its mode. */
  lemma FieldsAgree(c: Cache, d: Cache, id: Id)
    requires Agree(c) && id in c.bufs && id in d.bufs && d.bufs == c.bufs[id := d.bufs[id]]
    requires d.bufs[id].block == c.bufs[id].block && d.bufs[id].mode == c.bufs[id].mode
    requires d.hash == c.hash && d.trees == c.trees && d.clean.ring == c.clean.ring && d.dirty.ring == c.dirty.ring
    ensures Agree(d)
  {
    hide NoDup;
    assert forall b: Block :: Lookup(d, b) == Lookup(c, b);
    forall i
      ensures Cached(d, i) <==> Listed(d, i)
    {
      assert Cached(c, i) <==> Listed(c, i);
    }
  }

  lemma GetAgrees(c: Cache, block: Block)
    requires Agree(c)
    ensures Lookup(c, block).Some? ==> Lookup(c, block).value in c.bufs
    ensures Agree(CacheGet(c, block).0)
  {
    if Lookup(c, block).Some? {
      FieldsAgree(c, CacheGet(c, block).0, Lookup(c, block).value);
    }
  }

  lemma UnlinkAgrees(c: Cache, id: Id)
    requires Agree(c) && Listed(c, id)
    ensures id in c.bufs && id in ListOf(c, c.bufs[id].mode).ring
    ensures Agree(Unlink(c, id)) && !Listed(Unlink(c, id), id)
    ensures SameButFor(c, Unlink(c, id), Some(id))
  {
    hide NoDup, Lookup, Agree, Sharded, Remove;
    AgreeParts(c);
    LookupIsPlainMap(c, c.bufs[id].block, id);
    var b, d := c.bufs[id], Unlink(c, id);
    RemoveTakesOut(ListOf(c, b.mode), id);
    TreeEraseRefiles(c, b.block, d);
    OneBuffer(c, d, id, None);
  }

  lemma MarkAgrees(c: Cache, id: Id, m: Mode)
    requires Agree(c) && Listed(c, id)
    ensures id in c.bufs && id in ListOf(c, c.bufs[id].mode).ring
    ensures Agree(CacheMark(c, id, m)) && id in ListOf(CacheMark(c, id, m), m).ring
    ensures SameButFor(c, CacheMark(c, id, m), Some(id))
  {
    hide NoDup, Lookup, Agree, Sharded, Remove;
    AgreeParts(c);
    LookupIsPlainMap(c, c.bufs[id].block, id);
    var b, d := c.bufs[id], CacheMark(c, id, m);
    if b.mode != m {
      RemoveTakesOut(ListOf(c, b.mode), id);
      PushNoDup(ListOf(c, m).ring, id);
      SameRefiles(c, b.block, d);
      OneBuffer(c, d, id, Some(m));
    }
  }

  /** An unheld buffer on the list that the predicate lets go. */
  ghost predicate Matches(c: Cache, m: Mode, pred: Id -> Verdict, id: Id) {
    id in ListOf(c, m).ring && id in c.bufs && c.bufs[id].hold == 0 && pred(id) == Evict
  }

  lemma EvictAgrees(c: Cache, m: Mode, pred: Id -> Verdict)
    requires Agree(c)
    ensures var (d, r) := CacheEvict(c, m, pred);
            && Agree(d) && d.bufs == c.bufs && SameButFor(c, d, r)
            && (r.Some? ==> Matches(c, m, pred, r.value) && !Listed(d, r.value))
  {
    hide NoDup, Lookup, Agree, Sharded, EvictSpec;
    AgreeParts(c);
    EvictTakesOut(ListOf(c, m), Guarded(c.bufs, pred));
    var (l, x) := EvictSpec(ListOf(c, m), Guarded(c.bufs, pred));
    var (d, r) := CacheEvict(c, m, pred);
    if x.Some? {
      assert Listed(c, x.value);
      LookupIsPlainMap(c, c.bufs[x.value].block, x.value);
      TreeEraseRefiles(c, c.bufs[x.value].block, d);
      OneBuffer(c, d, x.value, None);
    } else {
      Permuted(c, d);
    }
  }

  /** The rings only turned. */
  lemma Permuted(c: Cache, d: Cache)
    requires Agree(c) && d.hash == c.hash && d.trees == c.trees && d.bufs == c.bufs
    requires NoDup(d.clean.ring) && NoDup(d.dirty.ring)
    requires forall x :: (x in d.clean.ring <==> x in c.clean.ring) && (x in d.dirty.ring <==> x in c.dirty.ring)
    ensures Agree(d)
  {
    hide NoDup;
    assert forall b: Block :: Lookup(d, b) == Lookup(c, b);
    forall i
      ensures Cached(d, i) <==> Listed(d, i)
    {
      assert Cached(c, i) <==> Listed(c, i);
    }
  }

  lemma MoveAgrees(c: Cache, from: Mode, to: Mode, pred: Id -> Verdict)
    requires Agree(c) && from != to
    ensures var (d, x) := MoveOne(c, from, to, pred);
            && Agree(d) && d.hash == c.hash && d.trees == c.trees
            && (x.Some? ==> Matches(c, from, pred, x.value) && d.bufs == c.bufs[x.value := c.bufs[x.value].(mode := to)]
                            && |ListOf(d, from).ring| == |ListOf(c, from).ring| - 1
                            && x.value in ListOf(d, to).ring && x.value !in ListOf(d, from).ring)
            && SameButFor(c, d, x) && (x.None? ==> d.bufs == c.bufs)
  {
    hide NoDup, Lookup, Agree, Sharded, EvictSpec;
    AgreeParts(c);
    EvictTakesOut(ListOf(c, from), Guarded(c.bufs, pred));
    var (l, x) := EvictSpec(ListOf(c, from), Guarded(c.bufs, pred));
    var d := MoveOne(c, from, to, pred).0;
    if x.Some? {
      var id := x.value;
      assert Listed(c, id);
      LookupIsPlainMap(c, c.bufs[id].block, id);
      PushNoDup(ListOf(c, to).ring, id);
      SameRefiles(c, c.bufs[id].block, d);
      OneBuffer(c, d, id, Some(to));
    } else {
      Permuted(c, d);
    }
  }

  /* ---------- the routines ---------- */

  /** What each tree holds. */
  ghost function Filed(trees: seq<BlockTree.Tree>): (r: seq<map<Block, Id>>) {
    seq(|trees|, i requires 0 <= i < |trees| => BlockTree.Blocks(trees[i]))
  }

  ghost predicate Sorted(trees: seq<BlockTree.Tree>) { forall i :: 0 <= i < |trees| ==> BlockTree.Ordered(trees[i]) }

  lemma Refile(trees: seq<BlockTree.Tree>, l: nat, t: BlockTree.Tree)
    requires l < |trees| && Sorted(trees) && BlockTree.Ordered(t)
    ensures Sorted(trees[l := t]) && Filed(trees[l := t]) == Filed(trees)[l := BlockTree.Blocks(t)]
  {}

  class DmBufferCache {
    const hash: Block -> nat
    const noSleep: bool
    var trees: seq<BlockTree.Tree>
    var bufs: map<Id, Buffer>
    const clean: LruList
    const dirty: LruList

    ghost function State(): Cache
      reads this, clean, dirty
    {
      Cache(hash, Filed(trees), clean.State(), dirty.State(), bufs)
    }

    ghost predicate Valid()
      reads this, clean, dirty
    {
      clean != dirty && clean.Valid() && dirty.Valid() && Sorted(trees) && Agree(State())
    }

    function ListObject(m: Mode): (l: LruList) { if m == Clean then clean else dirty }

    /** cache_init. */
    constructor (hash: Block -> nat, numLocks: nat, noSleep: bool)
      requires numLocks > 0 && forall b: Block :: hash(b) < numLocks
      ensures Valid() && fresh(clean) && fresh(dirty) && this.noSleep == noSleep
      ensures State() == Cache(hash, seq(numLocks, i => map[]), List([], {}, map[]), List([], {}, map[]), map[])
    {
      this.hash, this.noSleep := hash, noSleep;
      trees, bufs := seq(numLocks, i => BlockTree.Leaf), map[];
      clean := new LruList();
      dirty := new LruList();
    }

    /** cache_insert. The holder count is one on insertion. */
    method Insert(id: Id) returns (r: bool)
      requires Valid() && id in bufs && bufs[id].hold == 1 && !Listed(State(), id)
      modifies this, clean, dirty
      ensures Valid() && hash(old(bufs[id].block)) < |old(trees)| && (State(), r) == CacheInsert(old(State()), id)
    {
      hide Agree, NoDup;
      AgreeParts(State());
      InsertAgrees(State(), id);
      var b := bufs[id];
      var l := hash(b.block);
      var found := BlockTree.Search(trees[l], b.block);
      if found.Some? {
        return false;
      }
      BlockTree.InsertKeeps(trees[l], b.block, id);
      Refile(trees, l, BlockTree.Insert(trees[l], b.block, id));
      trees := trees[l := BlockTree.Insert(trees[l], b.block, id)];
      ListObject(b.mode).LruInsert(id);
      return true;
    }

    /** cache_get. */
    method Get(block: Block) returns (r: Option<Id>)
      requires Valid()
      modifies this, clean, dirty
      ensures Valid() && hash(block) < |old(trees)|
      ensures Lookup(old(State()), block).Some? ==> Lookup(old(State()), block).value in old(bufs)
      ensures (State(), r) == CacheGet(old(State()), block)
    {
      hide Agree, NoDup;
      AgreeParts(State());
      GetAgrees(State(), block);
      r := BlockTree.Search(trees[hash(block)], block);
      if r.None? {
        return;
      }
      var id := r.value;
      ListObject(bufs[id].mode).LruReference(id);
      bufs := bufs[id := bufs[id].(hold := bufs[id].hold + 1)];
    }

    /** cache_put: true when the last hold goes. */
    method Put(id: Id) returns (r: bool)
      requires Valid() && id in bufs && bufs[id].hold > 0
      modifies this
      ensures Valid() && bufs == old(bufs)[id := old(bufs)[id].(hold := old(bufs)[id].hold - 1)] && r == (bufs[id].hold == 0)
      ensures trees == old(trees)
    {
      hide Agree, NoDup;
      ghost var c := State();
      bufs := bufs[id := bufs[id].(hold := bufs[id].hold - 1)];
      FieldsAgree(c, State(), id);
      return bufs[id].hold == 0;
    }

    /** cache_remove: only the sole holder can remove. */
    method Remove(id: Id) returns (r: bool)
      requires Valid() && Listed(State(), id)
      modifies this, clean, dirty
      ensures Valid() && id in old(bufs) && r == (old(bufs)[id].hold == 1)
      ensures !r ==> State() == old(State())
      ensures r ==> hash(old(bufs)[id].block) < |old(trees)| && id in ListOf(old(State()), old(bufs)[id].mode).ring
                    && State() == Unlink(old(State()), id)
    {
      hide Agree, NoDup;
      AgreeParts(State());
      UnlinkAgrees(State(), id);
      var b := bufs[id];
      if b.hold != 1 {
        return false;
      }
      DropLinks(id);
      return true;
    }

    /** rb_erase. */
    method RemoveNode(b: Block)
      requires Sorted(trees) && hash(b) < |trees|
      modifies this`trees
      ensures Sorted(trees) && Filed(trees) == TreeErase(old(State()), b).trees
    {
      var l := hash(b);
      BlockTree.EraseKeeps(trees[l], b);
      Refile(trees, l, BlockTree.Erase(trees[l], b));
      trees := trees[l := BlockTree.Erase(trees[l], b)];
    }

    /** rb_erase and lru_remove. */
    method DropLinks(id: Id)
      requires Valid() && Listed(State(), id)
      modifies this, clean, dirty
      ensures Valid() && id in old(bufs) && hash(old(bufs)[id].block) < |old(trees)|
      ensures id in ListOf(old(State()), old(bufs)[id].mode).ring && State() == Unlink(old(State()), id)
    {
      hide Agree, NoDup;
      AgreeParts(State());
      UnlinkAgrees(State(), id);
      var b := bufs[id];
      RemoveNode(b.block);
      ListObject(b.mode).LruRemove(id);
    }

    /** cache_mark. */
    method Mark(id: Id, m: Mode)
      requires Valid() && Listed(State(), id)
      modifies this, clean, dirty
      ensures Valid() && id in old(bufs) && id in ListOf(old(State()), old(bufs)[id].mode).ring
      ensures State() == CacheMark(old(State()), id, m)
    {
      hide Agree, NoDup;
      AgreeParts(State());
      MarkAgrees(State(), id, m);
      var b := bufs[id];
      if m != b.mode {
        RemoveTakesOut(ListOf(State(), b.mode), id);
        ListObject(b.mode).LruRemove(id);
        bufs := bufs[id := b.(mode := m)];
        ListObject(m).LruInsert(id);
      }
    }

    /** cache_evict. */
    method EvictOne(m: Mode, pred: Id -> Verdict) returns (r: Option<Id>)
      requires Valid()
      modifies this, clean, dirty
      ensures Valid() && HashInRange(old(State())) && (State(), r) == CacheEvict(old(State()), m, pred)
    {
      hide Agree, NoDup, EvictSpec;
      AgreeParts(State());
      EvictAgrees(State(), m, pred);
      EvictTakesOut(ListOf(State(), m), Guarded(bufs, pred));
      ghost var rounds;
      r, rounds := ListObject(m).LruEvict(Guarded(bufs, pred));
      if r.Some? {
        RemoveNode(bufs[r.value].block);
      }
    }

    method MoveIn(id: Id, to: Mode)
      requires clean != dirty && ListObject(to).Valid() && id in bufs && id !in ListObject(to).ring
      modifies this`bufs, ListObject(to)
      ensures ListObject(to).Valid() && ListObject(to).State() == Lru.Insert(old(ListObject(to).State()), id)
      ensures bufs == old(bufs)[id := old(bufs)[id].(mode := to)]
    {
      bufs := bufs[id := bufs[id].(mode := to)];
      ListObject(to).LruInsert(id);
    }

    /** One round of cache_mark_many. */
    method MoveNext(from: Mode, to: Mode, pred: Id -> Verdict) returns (x: Option<Id>)
      requires Valid() && from != to
      modifies this, clean, dirty
      ensures Valid() && (State(), x) == MoveOne(old(State()), from, to, pred)
    {
      hide Agree, NoDup, EvictSpec, Filed, Sorted, HashInRange, Sharded, Guarded;
      AgreeParts(State());
      MoveAgrees(State(), from, to, pred);
      EvictTakesOut(ListOf(State(), from), Guarded(bufs, pred));
      ghost var rounds;
      x, rounds := ListObject(from).LruEvict(Guarded(bufs, pred));
      if x.Some? {
        MoveIn(x.value, to);
      }
    }

    /** cache_mark_many. */
    method MarkMany(from: Mode, to: Mode, pred: Id -> Verdict)
      requires Valid() && from != to
      modifies this, clean, dirty
      ensures Valid() && State() == MoveAll(old(State()), from, to, pred)
    {
      hide Agree, NoDup, MoveOne;
      ghost var c0 := State();
      var x := Some(0);
      while x.Some?
        invariant Valid() && MoveAll(c0, from, to, pred) == if x.Some? then MoveAll(State(), from, to, pred) else State()
        decreases x.Some?, |ListOf(State(), from).ring|
      {
        MoveAgrees(State(), from, to, pred);
        x := MoveNext(from, to, pred);
      }
    }

    method NextIn(l: nat, from: Block) returns (next: Option<(Block, Id)>)
      requires Sorted(trees) && l < |State().trees|
      ensures if next.None? then forall k :: k in State().trees[l] ==> k < from
              else BlockTree.IsNext(State().trees[l], from, next.value.0) && next.value.0 in State().trees[l]
                   && next.value.1 == State().trees[l][next.value.0]
    {
      assert State().trees[l] == BlockTree.Blocks(trees[l]);
      next := BlockTree.FindNext(trees[l], from);
    }

    /** __remove_range on one tree: the blocks from begin up to end, in ascending order. */
    method RemoveRangeIn(l: nat, begin: Block, end: Block, pred: Id -> Verdict, out0: seq<Id>, ghost c0: Cache) returns (out: seq<Id>)
      requires Valid() && Agree(c0) && c0.hash == hash && l < |State().trees| && Dropped(c0, State(), out0, begin, end, pred)
      modifies this, clean, dirty
      ensures Valid() && |State().trees| == |old(State()).trees| && Dropped(c0, State(), out, begin, end, pred)
      ensures forall id :: id in out0 ==> id in out
      ensures Covered(c0, out, begin, end, pred, l, end)
    {
      hide Agree, NoDup, Dropped, Covered, InRange, BlockTree.IsNext, Unlink, Filed, Sorted;
      var from := begin;
      out := out0;
      CoveredNone(c0, out, begin, end, pred, l);
      while from < end
        invariant begin <= from && Valid() && |State().trees| == |old(State()).trees| && Dropped(c0, State(), out, begin, end, pred)
        invariant forall id :: id in out0 ==> id in out
        invariant Covered(c0, out, begin, end, pred, l, from)
        decreases end - from
      {
        var next := NextIn(l, from);
        if next.None? || next.value.0 >= end {
          RangeDone(c0, State(), out, begin, end, pred, l, from, next);
          return;
        }
        RangeFound(c0, State(), out, begin, end, pred, l, from, next.value.0);
        var id := next.value.1;
        if bufs[id].hold == 0 && pred(id) == Evict {
          DroppedOne(c0, State(), out, begin, end, pred, id);
          DropLinks(id);
          out := out + [id];
        }
        from := next.value.0 + 1;
      }
      CoveredEnd(c0, out, begin, end, pred, l, from);
    }

    /** cache_remove_range: exactly the cached, unheld, matching buffers in the range go, each
        handed over once. */
    method RemoveRange(begin: Block, end: Block, pred: Id -> Verdict) returns (out: seq<Id>)
      requires Valid() && !noSleep
      modifies this, clean, dirty
      ensures Valid() && Dropped(old(State()), State(), out, begin, end, pred)
      ensures forall id :: id in out <==> InRange(old(State()), id, begin, end, pred)
    {
      hide Agree, NoDup, Covered, InRange;
      ghost var c0 := State();
      out := [];
      assert Dropped(c0, State(), out, begin, end, pred) by { NoDupNil(); }
      for l := 0 to |trees|
        invariant Valid() && |trees| == |c0.trees| && Dropped(c0, State(), out, begin, end, pred)
        invariant forall k :: 0 <= k < l ==> Covered(c0, out, begin, end, pred, k, end)
      {
        ghost var before := out;
        out := RemoveRangeIn(l, begin, end, pred, out, c0);
        forall k | 0 <= k < l
          ensures Covered(c0, out, begin, end, pred, k, end)
        {
          CoveredGrows(c0, before, out, begin, end, pred, k, end);
        }
      }
      AllCovered(c0, out, begin, end, pred);
    }
  }

  /** A cached, unheld buffer in the range that the predicate lets go. */
  ghost predicate InRange(c: Cache, id: Id, begin: Block, end: Block, pred: Id -> Verdict) {
    Listed(c, id) && id in c.bufs && begin <= c.bufs[id].block < end && c.bufs[id].hold == 0 && pred(id) == Evict
  }

  /** The buffers of out, taken off one by one. */
  ghost function UnlinkAll(c: Cache, out: seq<Id>): (r: Cache)
    decreases |out|
  {
    if out == [] then c
    else
      var d := UnlinkAll(c, out[..|out| - 1]);
      var id := out[|out| - 1];
      if id in d.bufs && d.hash(d.bufs[id].block) < |d.trees| && id in ListOf(d, d.bufs[id].mode).ring then Unlink(d, id) else d
  }

  lemma UnlinkAllOne(c: Cache, out: seq<Id>, id: Id)
    requires var d := UnlinkAll(c, out);
             id in d.bufs && d.hash(d.bufs[id].block) < |d.trees| && id in ListOf(d, d.bufs[id].mode).ring
    ensures UnlinkAll(c, out + [id]) == Unlink(UnlinkAll(c, out), id)
  {
    hide Unlink;
    assert (out + [id])[..|out|] == out;
  }

  /** d is c without the buffers of out, all of them in range. */
  ghost predicate Dropped(c: Cache, d: Cache, out: seq<Id>, begin: Block, end: Block, pred: Id -> Verdict) {
    && d == UnlinkAll(c, out)
    && d.bufs == c.bufs && NoDup(out) && (forall id :: id in out ==> InRange(c, id, begin, end, pred))
    && (forall x :: x in d.clean.ring <==> x in c.clean.ring && x !in out)
    && (forall x :: x in d.dirty.ring <==> x in c.dirty.ring && x !in out)
  }

  lemma NoDupNil()
    ensures NoDup([])
  {}

  lemma DroppedOne(c0: Cache, c: Cache, out: seq<Id>, begin: Block, end: Block, pred: Id -> Verdict, id: Id)
    requires Agree(c0) && Agree(c) && Dropped(c0, c, out, begin, end, pred) && Listed(c, id)
    requires InRange(c0, id, begin, end, pred)
    ensures id in c.bufs && c.hash(c.bufs[id].block) < |c.trees| && id in ListOf(c, c.bufs[id].mode).ring
    ensures Dropped(c0, Unlink(c, id), out + [id], begin, end, pred) && |Unlink(c, id).trees| == |c.trees|
  {
    hide Agree, NoDup, Unlink;
    AgreeParts(c);
    UnlinkAgrees(c, id);
    UnlinkBufs(c, id);
    assert id !in out;
    PushNoDup(out, id);
    UnlinkAllOne(c0, out, id);
  }

  lemma UnlinkBufs(c: Cache, id: Id)
    requires id in c.bufs && c.hash(c.bufs[id].block) < |c.trees| && id in ListOf(c, c.bufs[id].mode).ring
    ensures Unlink(c, id).bufs == c.bufs && |Unlink(c, id).trees| == |c.trees|
  {}

  /** Of tree l, everything in range below from is out. */
  ghost predicate Covered(c: Cache, out: seq<Id>, begin: Block, end: Block, pred: Id -> Verdict, l: nat, from: Block) {
    forall id :: InRange(c, id, begin, end, pred) && c.hash(c.bufs[id].block) == l && c.bufs[id].block < from ==> id in out
  }

  lemma CoveredNone(c: Cache, out: seq<Id>, begin: Block, end: Block, pred: Id -> Verdict, l: nat)
    ensures Covered(c, out, begin, end, pred, l, begin)
  {}

  lemma CoveredEnd(c: Cache, out: seq<Id>, begin: Block, end: Block, pred: Id -> Verdict, l: nat, from: Block)
    requires Covered(c, out, begin, end, pred, l, from) && end <= from
    ensures Covered(c, out, begin, end, pred, l, end)
  {}

  lemma CoveredGrows(c: Cache, out: seq<Id>, more: seq<Id>, begin: Block, end: Block, pred: Id -> Verdict, l: nat, from: Block)
    requires Covered(c, out, begin, end, pred, l, from) && forall id :: id in out ==> id in more
    ensures Covered(c, more, begin, end, pred, l, from)
  {}

  lemma AllCovered(c: Cache, out: seq<Id>, begin: Block, end: Block, pred: Id -> Verdict)
    requires Agree(c) && forall l :: 0 <= l < |c.trees| ==> Covered(c, out, begin, end, pred, l, end)
    ensures forall id :: InRange(c, id, begin, end, pred) ==> id in out
  {
    hide NoDup, Sharded;
    forall id | InRange(c, id, begin, end, pred)
      ensures id in out
    {
      assert Covered(c, out, begin, end, pred, c.hash(c.bufs[id].block), end);
    }
  }

  /** A buffer in range and not yet out is still in its tree. */
  lemma StillFiled(c0: Cache, c: Cache, out: seq<Id>, begin: Block, end: Block, pred: Id -> Verdict, id: Id)
    requires Agree(c) && c.hash == c0.hash && Dropped(c0, c, out, begin, end, pred)
    requires InRange(c0, id, begin, end, pred) && id !in out
    ensures HashInRange(c) && Lookup(c, c0.bufs[id].block) == Some(id)
  {
    hide Agree, NoDup, Lookup;
    AgreeParts(c);
    LookupIsPlainMap(c, c.bufs[id].block, id);
  }

  /** The next block belongs to a listed buffer, and nothing in range lies before it. */
  lemma RangeFound(c0: Cache, c: Cache, out: seq<Id>, begin: Block, end: Block, pred: Id -> Verdict, l: nat, from: Block, k: Block)
    requires Agree(c) && c.hash == c0.hash && Dropped(c0, c, out, begin, end, pred) && l < |c.trees| && begin <= from
    requires Covered(c0, out, begin, end, pred, l, from) && BlockTree.IsNext(c.trees[l], from, k) && k < end
    ensures k in c.trees[l] && k >= from
    ensures var id := c.trees[l][k];
            && Listed(c, id) && id in c.bufs
            && (if c.bufs[id].hold == 0 && pred(id) == Evict then
                  InRange(c0, id, begin, end, pred) && Covered(c0, out + [id], begin, end, pred, l, k + 1)
                else Covered(c0, out, begin, end, pred, l, k + 1))
  {
    hide NoDup;
    var id := c.trees[l][k];
    assert c.hash(k) == l;
    LookupIsPlainMap(c, k, id);
    forall x | InRange(c0, x, begin, end, pred) && c.hash(c0.bufs[x].block) == l && c0.bufs[x].block < k + 1 && x !in out
      ensures x == id
    {
      StillFiled(c0, c, out, begin, end, pred, x);
    }
  }

  /** Nothing in range is left. */
  lemma RangeDone(c0: Cache, c: Cache, out: seq<Id>, begin: Block, end: Block, pred: Id -> Verdict, l: nat, from: Block, next: Option<(Block, Id)>)
    requires Agree(c) && c.hash == c0.hash && Dropped(c0, c, out, begin, end, pred) && l < |c.trees|
    requires Covered(c0, out, begin, end, pred, l, from)
    requires if next.Some? then next.value.0 >= end && BlockTree.IsNext(c.trees[l], from, next.value.0) else forall k :: k in c.trees[l] ==> k < from
    ensures Covered(c0, out, begin, end, pred, l, end)
  {
    hide Agree, NoDup;
    forall x | InRange(c0, x, begin, end, pred) && c.hash(c0.bufs[x].block) == l && x !in out && from <= c0.bufs[x].block
      ensures c0.bufs[x].block in c.trees[l]
    {
      StillFiled(c0, c, out, begin, end, pred, x);
    }
  }

  /** d is c with some unheld matches of one list moved to the other. */
  ghost predicate Moved(c: Cache, d: Cache, from: Mode, to: Mode, pred: Id -> Verdict) {
    && d.hash == c.hash && d.trees == c.trees && d.bufs.Keys == c.bufs.Keys
    && (forall id :: id in ListOf(d, from).ring ==> id in ListOf(c, from).ring && id in c.bufs && d.bufs[id] == c.bufs[id])
    && (forall id :: id in c.bufs ==>
          d.bufs[id] == c.bufs[id] || (Matches(c, from, pred, id) && d.bufs[id] == c.bufs[id].(mode := to)))
  }

  /** Every buffer moved was on the list, unheld and matched; everything stays cached under
      its block. */
  lemma {:induction false} MoveAllMoves(c0: Cache, c: Cache, from: Mode, to: Mode, pred: Id -> Verdict)
    requires Agree(c) && from != to && Moved(c0, c, from, to, pred)
    ensures Moved(c0, MoveAll(c, from, to, pred), from, to, pred)
    decreases |ListOf(c, from).ring|
  {
    hide Agree, NoDup, MoveOne, Moved;
    MoveAgrees(c, from, to, pred);
    MovedOne(c0, c, from, to, pred);
    var (d, x) := MoveOne(c, from, to, pred);
    if x.Some? { MoveAllMoves(c0, d, from, to, pred); }
  }

  /** What stays behind: no reference bit is left, and an unheld match can only have been
      missed because it was referenced to begin with. */
  lemma {:induction false} MoveAllLeaves(c: Cache, from: Mode, to: Mode, pred: Id -> Verdict)
    requires Agree(c) && from != to && forall id :: pred(id) != Stop
    ensures var d := MoveAll(c, from, to, pred);
            && ListOf(d, from).referenced !! Elements(ListOf(d, from).ring)
            && forall id :: Matches(d, from, pred, id) ==> id in ListOf(c, from).referenced
    decreases |ListOf(c, from).ring|
  {
    hide Agree, NoDup, EvictSpec;
    AgreeParts(c);
    MoveAgrees(c, from, to, pred);
    EvictTakesOut(ListOf(c, from), Guarded(c.bufs, pred));
    EvictRefs(ListOf(c, from), Guarded(c.bufs, pred));
    var (d, x) := MoveOne(c, from, to, pred);
    if x.Some? { MoveAllLeaves(d, from, to, pred); }
  }

  /** The unheld referenced buffers are among the first on the ring: no more of it lies before
      any of them than there are referenced entries. */
  ghost predicate UnheldReferencedFirst(c: Cache, m: Mode) {
    var l := ListOf(c, m);
    forall i :: 0 <= i < |l.ring| && l.ring[i] in l.referenced && l.ring[i] in c.bufs && c.bufs[l.ring[i]].hold == 0 ==> i < |SecondLap(l)|
  }

  /** Either round keeps that. */
  lemma MoveKeepsFirst(c: Cache, from: Mode, to: Mode, pred: Id -> Verdict)
    requires Agree(c) && from != to && UnheldReferencedFirst(c, from) && forall id :: pred(id) != Stop
    ensures UnheldReferencedFirst(MoveOne(c, from, to, pred).0, from)
  {
    hide Agree, NoDup, SecondLap, Settle;
    AgreeParts(c);
    MoveAgrees(c, from, to, pred);
    var p := Guarded(c.bufs, pred);
    var l, d := ListOf(c, from), MoveOne(c, from, to, pred).0;
    var l' := ListOf(d, from);
    EvictTakesOut(l, p);
    assert l' == EvictSpec(l, p).0;
    forall k | 0 <= k < |l'.ring| && l'.ring[k] in l'.referenced && l'.ring[k] in d.bufs && d.bufs[l'.ring[k]].hold == 0
      ensures k < |SecondLap(l')|
    {
      if FirstHit(l.ring, l.referenced, p, 0) < |l.ring| {
        FirstLapKeepsFirst(l, p, k);
        assert l.ring[Pos(l.ring, l'.ring[k])] == l'.ring[k];
      } else {
        SecondLapClears(l, p);
      }
    }
  }

  lemma SecondLapClears(l: List, pred: Id -> Verdict)
    requires NoDup(l.ring) && FirstHit(l.ring, l.referenced, pred, 0) == |l.ring|
    ensures EvictSpec(l, pred).0.referenced == l.referenced - Elements(l.ring)
  {
    hide NoDup, CountRef;
  }

  lemma {:induction false} MoveAllLeavesNone(c: Cache, from: Mode, to: Mode, pred: Id -> Verdict)
    requires Agree(c) && from != to && UnheldReferencedFirst(c, from) && forall id :: pred(id) != Stop
    ensures forall id :: !Matches(MoveAll(c, from, to, pred), from, pred, id)
    decreases |ListOf(c, from).ring|
  {
    hide Agree, NoDup, EvictSpec, SecondLap, UnheldReferencedFirst;
    MoveAgrees(c, from, to, pred);
    MoveKeepsFirst(c, from, to, pred);
    var (d, x) := MoveOne(c, from, to, pred);
    if x.Some? { MoveAllLeavesNone(d, from, to, pred); } else { NoneLeft(c, from, to, pred); }
  }

  /** A round that finds nothing has refused them all. */
  lemma NoneLeft(c: Cache, from: Mode, to: Mode, pred: Id -> Verdict)
    requires Agree(c) && from != to && UnheldReferencedFirst(c, from) && MoveOne(c, from, to, pred).1.None? && forall id :: pred(id) != Stop
    ensures forall id :: !Matches(MoveOne(c, from, to, pred).0, from, pred, id)
  {
    hide Agree, NoDup, SecondLap, CountRef, Settle;
    AgreeParts(c);
    var l, p := ListOf(c, from), Guarded(c.bufs, pred);
    EvictTakesOut(l, p);
    SettleTakesOutAll(l, p);
    ExhaustedMeans(l, p);
    var d := MoveOne(c, from, to, pred).0;
    forall id | id in ListOf(d, from).ring && id in c.bufs && c.bufs[id].hold == 0
      ensures p(id) == DontEvict
    {
      var i :| 0 <= i < |l.ring| && l.ring[i] == id;
    }
  }

  /** With no verdict to stop at, only an exhausted search finds nothing. */
  lemma SettleTakesOutAll(l: List, pred: Id -> Verdict)
    requires EvictSpec(l, pred).1.None? && forall x :: pred(x) != Stop
    ensures Exhausted(l, pred)
  {
    hide CountRef;
  }

  /** A referenced, unheld buffer further back is missed by the predicate that wants it alone. */
  lemma MoveAllMisses(c: Cache, from: Mode, to: Mode, i: nat)
    requires Agree(c) && from != to
    requires var l := ListOf(c, from);
             i < |l.ring| && l.ring[i] in l.referenced && l.ring[i] in c.bufs && c.bufs[l.ring[i]].hold == 0 && i >= |SecondLap(l)|
    ensures var x := ListOf(c, from).ring[i];
            var pred := (y: Id) => if y == x then Evict else DontEvict;
            Matches(MoveAll(c, from, to, pred), from, pred, x)
  {
    hide Agree, NoDup, CountRef, Settle;
    AgreeParts(c);
    var l := ListOf(c, from);
    var x := l.ring[i];
    var pred := (y: Id) => if y == x then Evict else DontEvict;
    var p := Guarded(c.bufs, pred);
    assert forall j :: 0 <= j < |SecondLap(l)| ==> SecondLap(l)[j] != x by { NoDupFront(l.ring, i, |SecondLap(l)|); }
    assert Exhausted(l, p);
    ExhaustedMeans(l, p);
    MoveAgrees(c, from, to, pred);
  }

  lemma NoDupFront(s: seq<Id>, i: nat, n: nat)
    requires NoDup(s) && n <= i < |s|
    ensures forall j :: 0 <= j < n ==> s[..n][j] != s[i]
  {}

  /** Marking many leaves no match behind, whatever is asked for, exactly when the unheld
      referenced buffers come first. */
  lemma MoveAllCompleteIff(c: Cache, from: Mode, to: Mode)
    requires Agree(c) && from != to
    ensures UnheldReferencedFirst(c, from) <==>
            forall pred: Id -> Verdict :: (forall id :: pred(id) != Stop) ==>
              forall id :: !Matches(MoveAll(c, from, to, pred), from, pred, id)
  {
    hide Agree, MoveAll, SecondLap;
    if UnheldReferencedFirst(c, from) {
      forall pred: Id -> Verdict | forall id :: pred(id) != Stop
        ensures forall id :: !Matches(MoveAll(c, from, to, pred), from, pred, id)
      {
        MoveAllLeavesNone(c, from, to, pred);
      }
    } else {
      var l := ListOf(c, from);
      var i :| 0 <= i < |l.ring| && l.ring[i] in l.referenced && l.ring[i] in c.bufs && c.bufs[l.ring[i]].hold == 0 && i >= |SecondLap(l)|;
      MoveAllMisses(c, from, to, i);
      var pred := (y: Id) => if y == l.ring[i] then Evict else DontEvict;
      assert forall id :: pred(id) != Stop;
    }
  }

  /** In particular a cleaned buffer can stay on the dirty list: the second of two, when it alone
      is referenced. */
  lemma CleanedLeftBehind(c: Cache, pred: Id -> Verdict)
    requires Agree(c) && c.dirty == List([0, 1], {1}, map[]) && c.bufs[1].hold == 0
    requires pred(0) == DontEvict && pred(1) == Evict
    ensures Matches(MoveAll(c, Dirty, Clean, pred), Dirty, pred, 1)
  {
    hide Agree, NoDup;
    AgreeParts(c);
    var p := Guarded(c.bufs, pred);
    assert p(0) == DontEvict && p(1) == Evict;
    MissedEntry(c.dirty, p);
    ExhaustedMeans(c.dirty, p);
    MoveAgrees(c, Dirty, Clean, pred);
  }

  /** If every buffer of the list is unheld and wanted, none stays. */
  lemma {:induction false} MoveAllEmpties(c: Cache, from: Mode, to: Mode, pred: Id -> Verdict)
    requires Agree(c) && from != to
    requires forall id :: id in ListOf(c, from).ring && id in c.bufs ==> c.bufs[id].hold == 0 && pred(id) == Evict
    ensures ListOf(MoveAll(c, from, to, pred), from).ring == []
    decreases |ListOf(c, from).ring|
  {
    hide Agree, NoDup, EvictSpec;
    AgreeParts(c);
    MoveAgrees(c, from, to, pred);
    EvictFinds(ListOf(c, from), Guarded(c.bufs, pred));
    EvictTakesOut(ListOf(c, from), Guarded(c.bufs, pred));
    var (d, x) := MoveOne(c, from, to, pred);
    if x.Some? { MoveAllEmpties(d, from, to, pred); }
  }

  lemma MovedNone(c: Cache, from: Mode, to: Mode, pred: Id -> Verdict)
    requires Agree(c)
    ensures Moved(c, c, from, to, pred)
  {
    hide NoDup, Sharded;
  }

  lemma MovedOne(c0: Cache, c: Cache, from: Mode, to: Mode, pred: Id -> Verdict)
    requires Agree(c) && from != to && Moved(c0, c, from, to, pred)
    ensures Moved(c0, MoveOne(c, from, to, pred).0, from, to, pred)
  {
    hide Agree, NoDup, MoveOne;
    MoveAgrees(c, from, to, pred);
    var (d, x) := MoveOne(c, from, to, pred);
    forall id | id in ListOf(d, from).ring
      ensures id in ListOf(c0, from).ring && id in c0.bufs && d.bufs[id] == c0.bufs[id]
    {
      assert x != Some(id);
      assert id in ListOf(c, from).ring;
    }
  }

  /* ---------- what hits are worth ---------- */

  /** A hit references the buffer, and costs no other its reference. */
  lemma HitReferences(c: Cache, block: Block)
    requires Agree(c)
    ensures HashInRange(c) && (Lookup(c, block).Some? ==> Lookup(c, block).value in c.bufs)
    ensures var (d, x) := CacheGet(c, block);
            && (x.Some? ==> x.value in ListOf(d, d.bufs[x.value].mode).referenced && x.value in ListOf(d, d.bufs[x.value].mode).ring)
            && c.clean.referenced <= d.clean.referenced && c.dirty.referenced <= d.dirty.referenced
  {
    hide Lookup, NoDup, Sharded, Agree;
    AgreeParts(c);
    GetAgrees(c, block);
    if Lookup(c, block).Some? { LookupIsPlainMap(c, block, Lookup(c, block).value); }
  }

  /** A buffer hit since the last search came by is not taken while one that was not, unheld and
      acceptable, is on the list. */
  lemma HitOutlives(c: Cache, m: Mode, pred: Id -> Verdict, z: Id)
    requires Agree(c) && z in ListOf(c, m).ring && z !in ListOf(c, m).referenced
    requires z in c.bufs && c.bufs[z].hold == 0 && pred(z) == Evict && forall y :: pred(y) != Stop
    ensures HashInRange(c) && CacheEvict(c, m, pred).1.Some?
    ensures var x := CacheEvict(c, m, pred).1.value; x in ListOf(c, m).ring && x !in ListOf(c, m).referenced
  {
    hide NoDup, Lookup, Sharded, Agree, EvictSpec, Pos;
    AgreeParts(c);
    SecondChance(ListOf(c, m), Guarded(c.bufs, pred), z);
  }
}
