/** The sharded bio prison of md/dm-bio-prison-v1.c. */
module PrisonV1 {
  import opened Collections
  import opened CellTree

  type Bio = nat

  const MAX_RANGE := 1024
  const U64 := 0x1_0000_0000_0000_0000

  /** dm_cell_key_has_valid_range, with the wrap-around of 64-bit block numbers. */
  predicate HasValidRange(key: Key)
    requires key.lo < U64 && key.hi < U64
  {
    (key.hi - key.lo) % U64 <= MAX_RANGE && key.lo / MAX_RANGE == (key.hi - 1) % U64 / MAX_RANGE
  }

  /** The range lies in one aligned stretch of 1024 blocks. */
  predicate InOneStretch(key: Key) {
    key.lo < key.hi && key.lo / 1024 == (key.hi - 1) / 1024
  }

  /** On proper keys the run-time test is exactly the layout rule. */
  lemma ValidRangeMeans(key: Key)
    requires Proper(key) && key.hi < U64
    ensures HasValidRange(key) <==> InOneStretch(key)
  {
    if key.lo / MAX_RANGE == (key.hi - 1) / MAX_RANGE {
      var q := key.lo / MAX_RANGE;
      assert q * MAX_RANGE <= key.lo < q * MAX_RANGE + MAX_RANGE;
      assert key.hi - 1 < q * MAX_RANGE + MAX_RANGE;
    }
  }

  /** The test lets an empty range through unless it sits on a stretch boundary. */
  lemma EmptyRangeAccepted(key: Key)
    requires key.lo == key.hi < U64
    ensures HasValidRange(key) <==> key.lo % 1024 != 0
  {
    if key.lo > 0 { assert (key.hi - 1) % U64 == key.hi - 1; }
  }

  /** Everything the test accepts: the layout rule, an empty range off a boundary, and a range
      from the last stretch that ends at the wrapped block 0. */
  lemma ValidRangeIff(key: Key)
    requires key.lo < U64 && key.hi < U64
    ensures HasValidRange(key) <==>
            InOneStretch(key) || (key.lo == key.hi && key.lo % 1024 != 0) || (key.hi == 0 && key.lo >= 0x1_0000_0000_0000_0000 - 1024)
  {
    if key.lo < key.hi {
      ValidRangeMeans(key);
    } else if key.lo == key.hi {
      EmptyRangeAccepted(key);
    } else {
      assert (key.hi - key.lo) % U64 == key.hi - key.lo + U64;
      assert key.hi > 0 ==> (key.hi - 1) % U64 == key.hi - 1;
    }
  }

  /* ---------- the prison ---------- */

  datatype Cell = Cell(key: Key, holder: Option<Bio>, bios: seq<Bio>)

  /** hash is dm_hash_locks_index for this number of regions. */
  datatype Prison = Prison(hash: nat -> nat, regions: seq<Tree>, cells: map<CellId, Cell>)

  ghost predicate HashInRange(p: Prison) {
    forall x: nat :: p.hash(x) < |p.regions|
  }

  /** lock_nr. */
  function LockNr(p: Prison, key: Key): (l: nat) { p.hash(key.lo / MAX_RANGE) }

  /** Overlapping keys go to the same region, whatever the hash. */
  lemma SameRegion(p: Prison, k: Key, k': Key)
    requires InOneStretch(k) && InOneStretch(k') && Overlap(k, k')
    ensures LockNr(p, k) == LockNr(p, k')
  {
    var b: nat :| Covers(k, b) && Covers(k', b);
    StretchOf(k, b);
    StretchOf(k', b);
  }

  lemma StretchOf(k: Key, b: nat)
    requires InOneStretch(k) && Covers(k, b)
    ensures b / MAX_RANGE == k.lo / MAX_RANGE
  {}

  /** Each region is a search tree of exactly the cells whose key hashes to it. */
  ghost predicate Valid(p: Prison) {
    && HashInRange(p)
    && (forall l :: 0 <= l < |p.regions| ==> Ordered(p.regions[l]))
    && (forall l, e :: 0 <= l < |p.regions| && e in Entries(p.regions[l]) ==>
          e.id in p.cells && p.cells[e.id].key == e.key && LockNr(p, e.key) == l)
    && (forall id :: id in p.cells ==>
          InOneStretch(p.cells[id].key) && Entry(p.cells[id].key, id) in Entries(p.regions[LockNr(p, p.cells[id].key)]))
  }

  /* ---------- the operations ---------- */

  /** bio_detain; dm_get_cell is the case without an inmate. The result says whether the cell
      existed and which it is. */
  function Detain(p: Prison, key: Key, inmate: Option<Bio>, prealloc: CellId): (r: (Prison, int, CellId))
    requires LockNr(p, key) < |p.regions|
    requires Find(p.regions[LockNr(p, key)], key).Some? ==> Find(p.regions[LockNr(p, key)], key).value in p.cells
  {
    var l := LockNr(p, key);
    match Find(p.regions[l], key)
    case Some(id) =>
      var c := p.cells[id];
      var c' := if inmate.Some? then c.(bios := c.bios + [inmate.value]) else c;
      (p.(cells := p.cells[id := c']), 1, id)
    case None =>
      (p.(regions := p.regions[l := Insert(p.regions[l], Entry(key, prealloc))],
          cells := p.cells[prealloc := Cell(key, inmate, [])]), 0, prealloc)
  }

  /** rb_erase of a live cell. */
  function Drop(p: Prison, id: CellId): (r: Prison)
    requires id in p.cells && LockNr(p, p.cells[id].key) < |p.regions|
  {
    var k := p.cells[id].key;
    var l := LockNr(p, k);
    p.(regions := p.regions[l := Erase(p.regions[l], k)], cells := p.cells - {id})
  }

  /** The holder, if any, then the inmates. */
  function Members(c: Cell): (s: seq<Bio>) { (if c.holder.Some? then [c.holder.value] else []) + c.bios }

  /** dm_cell_promote_or_release. */
  function Promote(p: Prison, id: CellId): (r: (Prison, int))
    requires id in p.cells && LockNr(p, p.cells[id].key) < |p.regions|
  {
    var c := p.cells[id];
    if c.bios == [] then (Drop(p, id), 1)
    else (p.(cells := p.cells[id := c.(holder := Some(c.bios[0]), bios := c.bios[1..])]), 0)
  }

  /* ---------- refinement of one flat prison ---------- */

  /** A prison without shards or trees: detaining joins some overlapping cell, or opens one if
      there is none. */
  ghost predicate FlatDetain(cells: map<CellId, Cell>, key: Key, inmate: Option<Bio>, prealloc: CellId,
                             cells': map<CellId, Cell>, r: int, id: CellId)
  {
    if exists i :: i in cells && Overlap(key, cells[i].key) then
      && r == 1 && id in cells && Overlap(key, cells[id].key)
      && cells' == cells[id := if inmate.Some? then cells[id].(bios := cells[id].bios + [inmate.value]) else cells[id]]
    else
      r == 0 && id == prealloc && cells' == cells[prealloc := Cell(key, inmate, [])]
  }

  /** Looking in one region is looking everywhere. */
  lemma FindFlat(p: Prison, key: Key)
    requires Valid(p) && InOneStretch(key)
    ensures LockNr(p, key) < |p.regions|
    ensures Find(p.regions[LockNr(p, key)], key).None? <==> forall i :: i in p.cells ==> !Overlap(key, p.cells[i].key)
    ensures Find(p.regions[LockNr(p, key)], key).Some? ==>
              Find(p.regions[LockNr(p, key)], key).value in p.cells &&
              Overlap(key, p.cells[Find(p.regions[LockNr(p, key)], key).value].key)
  {
    hide Overlap, InOneStretch, LockNr;
    assert Proper(key) && LockNr(p, key) < |p.regions| by { StretchProper(p, key); }
    var t := p.regions[LockNr(p, key)];
    FindOverlap(t, key);
    forall i | i in p.cells && Overlap(key, p.cells[i].key)
      ensures Find(t, key).Some?
    {
      SameRegion(p, key, p.cells[i].key);
      assert Entry(p.cells[i].key, i) in Entries(t);
    }
  }

  lemma StretchProper(p: Prison, key: Key)
    requires Valid(p) && InOneStretch(key)
    ensures Proper(key) && LockNr(p, key) < |p.regions|
  {}

  /** Sharding is invisible: detaining refines the flat prison and keeps the regions valid. */
  lemma DetainRefines(p: Prison, key: Key, inmate: Option<Bio>, prealloc: CellId)
    requires Valid(p) && InOneStretch(key) && prealloc !in p.cells
    ensures LockNr(p, key) < |p.regions|
    ensures Find(p.regions[LockNr(p, key)], key).Some? ==> Find(p.regions[LockNr(p, key)], key).value in p.cells
    ensures var (p', r, id) := Detain(p, key, inmate, prealloc);
            FlatDetain(p.cells, key, inmate, prealloc, p'.cells, r, id) && Valid(p')
  {
    hide Overlap, InOneStretch, LockNr, Cmp, Valid;
    FindFlat(p, key);
    var l := LockNr(p, key);
    match Find(p.regions[l], key)
    case Some(id) => SameKeyValid(p, id, if inmate.Some? then p.cells[id].(bios := p.cells[id].bios + [inmate.value]) else p.cells[id]);
    case None => LinkValid(p, key, inmate, prealloc);
  }

  /** Changing who is in a cell leaves the trees valid. */
  lemma SameKeyValid(p: Prison, id: CellId, c: Cell)
    requires Valid(p) && id in p.cells && c.key == p.cells[id].key
    ensures Valid(p.(cells := p.cells[id := c]))
  {
    hide InOneStretch, LockNr, Ordered, Entries;
    var q := p.(cells := p.cells[id := c]);
    LockSame(p, q);
  }

  lemma LockSame(p: Prison, q: Prison)
    requires p.hash == q.hash
    ensures forall k :: LockNr(p, k) == LockNr(q, k)
  {}

  lemma LinkValid(p: Prison, key: Key, inmate: Option<Bio>, prealloc: CellId)
    requires Valid(p) && InOneStretch(key) && prealloc !in p.cells && LockNr(p, key) < |p.regions|
    requires Find(p.regions[LockNr(p, key)], key).None?
    ensures Valid(Detain(p, key, inmate, prealloc).0)
  {
    hide InOneStretch, LockNr, Ordered, Entries, Cmp, Overlap, Insert, Find;
    var l, n := LockNr(p, key), Entry(key, prealloc);
    assert Proper(key) by { StretchProper(p, key); }
    var t := p.regions[l];
    FindOverlap(t, key);
    forall e | e in Entries(t)
      ensures Cmp(n.key, e.key) != 0
    {
      assert Proper(e.key) by { StretchProper(p, p.cells[e.id].key); }
      CmpIsOverlap(key, e.key);
    }
    InsertKeeps(t, n);
    var q := Detain(p, key, inmate, prealloc).0;
    LockSame(p, q);
    assert n in Entries(q.regions[l]);
    forall m, e | 0 <= m < |q.regions| && e in Entries(q.regions[m])
      ensures e.id in q.cells && q.cells[e.id].key == e.key && LockNr(q, e.key) == m
    {
      if m != l || e != n { assert e in Entries(p.regions[m]); }
    }
    forall id | id in q.cells
      ensures InOneStretch(q.cells[id].key) && LockNr(q, q.cells[id].key) < |q.regions|
      ensures Entry(q.cells[id].key, id) in Entries(q.regions[LockNr(q, q.cells[id].key)])
    {
      if id != prealloc {
        assert q.cells[id] == p.cells[id];
        StretchProper(p, p.cells[id].key);
      }
    }
  }

  /** Erasing a cell keeps the rest valid. */
  lemma DropValid(p: Prison, id: CellId)
    requires Valid(p) && id in p.cells
    ensures LockNr(p, p.cells[id].key) < |p.regions| && Valid(Drop(p, id))
  {
    hide InOneStretch, LockNr, Ordered, Entries, Erase;
    var k := p.cells[id].key;
    var l, n := LockNr(p, k), Entry(k, id);
    assert l < |p.regions| by { StretchProper(p, k); }
    EraseKeeps(p.regions[l], n);
    var q := Drop(p, id);
    LockSame(p, q);
    forall m, e | 0 <= m < |q.regions| && e in Entries(q.regions[m])
      ensures e.id in q.cells && q.cells[e.id].key == e.key && LockNr(q, e.key) == m
    {
      assert e in Entries(p.regions[m]);
      assert e != n;
    }
    forall i | i in q.cells
      ensures InOneStretch(q.cells[i].key) && LockNr(q, q.cells[i].key) < |q.regions|
      ensures Entry(q.cells[i].key, i) in Entries(q.regions[LockNr(q, q.cells[i].key)])
    {
      StretchProper(p, p.cells[i].key);
    }
  }

  /** Live cells never overlap, across all regions. */
  lemma LiveDisjoint(p: Prison, i: CellId, j: CellId)
    requires Valid(p) && i in p.cells && j in p.cells && i != j
    ensures !Overlap(p.cells[i].key, p.cells[j].key)
  {
    hide Overlap, LockNr, InOneStretch;
    var k, k' := p.cells[i].key, p.cells[j].key;
    if Overlap(k, k') {
      SameRegion(p, k, k');
      assert LockNr(p, k) < |p.regions| by { StretchProper(p, k); }
      EntriesDisjoint(p.regions[LockNr(p, k)], Entry(k, i), Entry(k', j));
    }
  }

  /* ---------- runs: every bio is in one place ---------- */

  /** place says which cell each detained bio is in, asked with which key it came; came and left
      list the detentions and the departures in order. A bio that has left may come again. */
  datatype Sys = Sys(p: Prison, place: map<Bio, CellId>, came: seq<Bio>, left: seq<Bio>, asked: map<Bio, Key>)

  datatype Event =
    | Get(key: Key, inmate: Option<Bio>, prealloc: CellId)
    | Release(id: CellId)
    | PromoteOrRelease(id: CellId)

  ghost predicate Legal(s: Sys, e: Event) {
    match e
    case Get(key, inmate, prealloc) =>
      InOneStretch(key) && prealloc !in s.p.cells && (inmate.Some? ==> inmate.value !in s.place)
    case Release(id) => id in s.p.cells
    case PromoteOrRelease(id) => id in s.p.cells
  }

  ghost function Depart(place: map<Bio, CellId>, bios: seq<Bio>): (r: map<Bio, CellId>) { place - Elements(bios) }

  /** The bios that a step sends out of the prison. Release stands for dm_cell_release, its
      no-holder form and dm_cell_visit_release: in each the holder and the inmates pass to the
      client. Promotion lets only the old holder go. */
  ghost function Departures(c: Cell, e: Event): (bios: seq<Bio>) {
    match e
    case Get(_, _, _) => []
    case Release(_) => Members(c)
    case PromoteOrRelease(_) => if c.holder.Some? then [c.holder.value] else []
  }

  ghost predicate Step(s: Sys, e: Event, r: Sys)
    requires Valid(s.p) && Legal(s, e)
  {
    match e
    case Get(key, inmate, prealloc) =>
      DetainRefines(s.p, key, inmate, prealloc);
      var (p', _, id) := Detain(s.p, key, inmate, prealloc);
      r == if inmate.Some? then Sys(p', s.place[inmate.value := id], s.came + [inmate.value], s.left, s.asked[inmate.value := key])
           else s.(p := p')
    case Release(id) =>
      DropValid(s.p, id);
      var out := Departures(s.p.cells[id], e);
      r == Sys(Drop(s.p, id), Depart(s.place, out), s.came, s.left + out, s.asked - Elements(out))
    case PromoteOrRelease(id) =>
      DropValid(s.p, id);
      var out := Departures(s.p.cells[id], e);
      r == Sys(Promote(s.p, id).0, Depart(s.place, out), s.came, s.left + out, s.asked - Elements(out))
  }

  /** The members of a cell are exactly the bios placed in it, each once. */
  ghost predicate CellOk(s: Sys, id: CellId)
    requires id in s.p.cells
  {
    var m := Members(s.p.cells[id]);
    NoDup(m) && (forall b :: b in m <==> b in s.place && s.place[b] == id)
  }

  ghost predicate Inv(s: Sys) {
    && Valid(s.p)
    && (forall id :: id in s.p.cells ==> CellOk(s, id))
    && (forall b :: b in s.place ==> s.place[b] in s.p.cells)
    && Balanced(s.came, s.left, s.place.Keys)
  }

  /** A new inmate joins cell id, which may be new; nobody else moves. */
  lemma JoinKeeps(s: Sys, r: Sys, inmate: Option<Bio>, id: CellId, i: CellId)
    requires inmate.Some? ==> inmate.value !in s.place
    requires forall b :: b in s.place ==> s.place[b] in s.p.cells
    requires r.place == if inmate.Some? then s.place[inmate.value := id] else s.place
    requires i in r.p.cells && (i != id ==> i in s.p.cells && r.p.cells[i] == s.p.cells[i])
    requires i in s.p.cells ==> CellOk(s, i)
    requires i == id ==> Members(r.p.cells[i]) ==
                         (if i in s.p.cells then Members(s.p.cells[i]) else []) + (if inmate.Some? then [inmate.value] else [])
    ensures CellOk(r, i)
  {
    hide Members;
    if i == id {
      var was := if i in s.p.cells then Members(s.p.cells[i]) else [];
      NoDupJoin(was, if inmate.Some? then [inmate.value] else []);
    }
  }

  lemma JoinedMembers(c: Cell, inmate: Option<Bio>)
    ensures Members(if inmate.Some? then c.(bios := c.bios + [inmate.value]) else c) ==
            Members(c) + (if inmate.Some? then [inmate.value] else [])
    ensures Members(Cell(c.key, inmate, [])) == if inmate.Some? then [inmate.value] else []
  {}

  lemma CameKept(s: Sys, r: Sys, b: Bio, id: CellId)
    requires Balanced(s.came, s.left, s.place.Keys) && b !in s.place
    requires r.place == s.place[b := id] && r.came == s.came + [b] && r.left == s.left
    ensures Balanced(r.came, r.left, r.place.Keys)
  {
    Comes(s.came, s.left, s.place.Keys, b);
    assert r.place.Keys == s.place.Keys + {b};
  }

  lemma GetKeeps(s: Sys, e: Event, r: Sys)
    requires Inv(s) && e.Get? && Legal(s, e) && Step(s, e, r)
    ensures Inv(r)
  {
    hide Valid, InOneStretch, Overlap, Cmp, LockNr, Find, Detain, CellOk, NoDup, Members, Balanced;
    DetainRefines(s.p, e.key, e.inmate, e.prealloc);
    var (p', res, id) := Detain(s.p, e.key, e.inmate, e.prealloc);
    JoinedMembers(if id in s.p.cells then s.p.cells[id] else Cell(e.key, None, []), e.inmate);
    forall i | i in r.p.cells
      ensures CellOk(r, i)
    {
      JoinKeeps(s, r, e.inmate, id, i);
    }
    if e.inmate.Some? { CameKept(s, r, e.inmate.value, id); }
  }

  /** Members of a cell leave: no other cell notices. */
  lemma OthersKept(s: Sys, r: Sys, id: CellId, out: seq<Bio>, i: CellId)
    requires id in s.p.cells && CellOk(s, id) && i in s.p.cells && i in r.p.cells && i != id && CellOk(s, i)
    requires r.p.cells[i] == s.p.cells[i] && r.place == Depart(s.place, out)
    requires forall b :: b in out ==> b in Members(s.p.cells[id])
    ensures CellOk(r, i)
  {
    hide Members;
  }

  lemma LeftKept(s: Sys, r: Sys, id: CellId, out: seq<Bio>)
    requires id in s.p.cells && CellOk(s, id) && NoDup(out)
    requires Balanced(s.came, s.left, s.place.Keys) && r.came == s.came
    requires r.left == s.left + out && r.place == Depart(s.place, out)
    requires forall b :: b in out ==> b in Members(s.p.cells[id])
    ensures Balanced(r.came, r.left, r.place.Keys)
  {
    hide Members, NoDup, Balanced;
    Go(s.came, s.left, s.place.Keys, out);
    assert r.place.Keys == s.place.Keys - Elements(out);
  }

  lemma ReleaseKeeps(s: Sys, e: Event, r: Sys)
    requires Inv(s) && e.Release? && Legal(s, e) && Step(s, e, r)
    ensures Inv(r)
  {
    hide Valid, LockNr, Erase, Members, NoDup, Balanced;
    var id := e.id;
    DropValid(s.p, id);
    assert CellOk(s, id);
    var out := Departures(s.p.cells[id], e);
    forall i | i in r.p.cells
      ensures CellOk(r, i)
    {
      OthersKept(s, r, id, out, i);
    }
    LeftKept(s, r, id, out);
  }

  lemma PromoteKeeps(s: Sys, e: Event, r: Sys)
    requires Inv(s) && e.PromoteOrRelease? && Legal(s, e) && Step(s, e, r)
    ensures Inv(r)
  {
    var c := s.p.cells[e.id];
    if c.bios == [] {
      assert Members(c) == Departures(c, e);
      ReleaseKeeps(s, Release(e.id), r);
    } else {
      PassOnKeeps(s, e.id, r);
    }
  }

  /** The first inmate becomes the holder. */
  lemma PassOnKeeps(s: Sys, id: CellId, r: Sys)
    requires Inv(s) && id in s.p.cells && s.p.cells[id].bios != [] && Step(s, PromoteOrRelease(id), r)
    ensures Inv(r)
  {
    hide Valid, LockNr, Drop, NoDup, CellOk, Members, Balanced;
    var c := s.p.cells[id];
    var c' := c.(holder := Some(c.bios[0]), bios := c.bios[1..]);
    var out := Departures(c, PromoteOrRelease(id));
    SameKeyValid(s.p, id, c');
    assert Members(c) == out + c.bios && Members(c') == c.bios && NoDup(out) by { PassOnMembers(c); }
    LeftKept(s, r, id, out);
    SuffixOk(s, r, id, out, c.bios);
    forall i | i in r.p.cells
      ensures CellOk(r, i)
    {
      if i != id { OthersKept(s, r, id, out, i); }
    }
  }

  lemma PassOnMembers(c: Cell)
    requires c.bios != []
    ensures Members(c) == Departures(c, PromoteOrRelease(0)) + c.bios
    ensures Members(c.(holder := Some(c.bios[0]), bios := c.bios[1..])) == c.bios
    ensures NoDup(Departures(c, PromoteOrRelease(0)))
  {}

  /** Those left behind in the cell are still there, once each. */
  lemma SuffixOk(s: Sys, r: Sys, id: CellId, out: seq<Bio>, rest: seq<Bio>)
    requires id in s.p.cells && CellOk(s, id) && id in r.p.cells && r.place == Depart(s.place, out)
    requires Members(s.p.cells[id]) == out + rest && Members(r.p.cells[id]) == rest
    ensures CellOk(r, id)
  {
    hide Members;
    var m := out + rest;
    forall i, j | 0 <= i < |out| && 0 <= j < |rest|
      ensures out[i] != rest[j]
    {
      assert m[i] == out[i] && m[|out| + j] == rest[j];
    }
    assert rest == m[|out|..];
  }

  ghost predicate Reaches(s: Sys, es: seq<Event>, r: Sys)
    decreases |es|, 1
  {
    if es == [] then r == s else Goes(s, es, r)
  }

  /** The first event can happen, and the others go on from a state it leads to. */
  ghost predicate Goes(s: Sys, es: seq<Event>, r: Sys)
    requires es != []
    decreases |es|, 0
  {
    Valid(s.p) && Legal(s, es[0]) && exists m :: Step(s, es[0], m) && Reaches(m, es[1..], r)
  }

  /** In every run each detained bio is the holder or an inmate of exactly one live cell, once,
      and every earlier detention of any bio has ended in one departure; and the regions stay
      valid. */
  lemma {:induction false} InvRun(s: Sys, es: seq<Event>, r: Sys)
    requires Inv(s) && Reaches(s, es, r)
    ensures Inv(r)
    decreases |es|
  {
    if es != [] {
      assert Goes(s, es, r);
      var m :| Step(s, es[0], m) && Reaches(m, es[1..], r);
      hide Step, Valid, Legal, Balanced;
      match es[0]
      case Get(_, _, _) => GetKeeps(s, es[0], m); InvRun(m, es[1..], r);
      case Release(_) => ReleaseKeeps(s, es[0], m); InvRun(m, es[1..], r);
      case PromoteOrRelease(_) => PromoteKeeps(s, es[0], m); InvRun(m, es[1..], r);
    }
  }

  function Initial(hash: nat -> nat, n: nat): (s: Sys) { Sys(Prison(hash, seq(n, i => Leaf), map[]), map[], [], [], map[]) }

  lemma InvInitial(hash: nat -> nat, n: nat)
    requires n > 0 && forall x: nat :: hash(x) < n
    ensures Inv(Initial(hash, n))
  {}

  lemma InvStep(s: Sys, e: Event, r: Sys)
    requires Inv(s) && Legal(s, e) && Step(s, e, r)
    ensures Inv(r)
  {
    hide Inv, Step, Legal;
    match e
    case Get(_, _, _) => GetKeeps(s, e, r);
    case Release(_) => ReleaseKeeps(s, e, r);
    case PromoteOrRelease(_) => PromoteKeeps(s, e, r);
  }

  /* ---------- what the bios themselves asked for ---------- */

  /** Each detained bio asked for a key that overlaps its cell. The cell's key is that of the bio
      that opened it. */
  ghost predicate Asked(s: Sys) {
    && s.asked.Keys == s.place.Keys
    && forall b :: b in s.place ==> s.place[b] in s.p.cells && Overlap(s.asked[b], s.p.cells[s.place[b]].key)
  }

  /** Of the cells, at most one goes or is changed, and none changes its key. */
  ghost predicate KeysStay(s: Sys, r: Sys) { forall i :: i in s.p.cells && i in r.p.cells ==> r.p.cells[i].key == s.p.cells[i].key }

  lemma GetIs(s: Sys, e: Event, r: Sys)
    requires Inv(s) && e.Get? && Legal(s, e) && Step(s, e, r)
    ensures KeysStay(s, r) && forall i :: i in s.p.cells ==> i in r.p.cells
    ensures e.inmate.None? ==> r.place == s.place && r.asked == s.asked
    ensures forall i :: i in r.p.cells && i !in s.p.cells ==> r.p.cells[i].key == e.key
    ensures e.inmate.Some? ==>
              exists id :: && id in r.p.cells && Overlap(e.key, r.p.cells[id].key)
                           && r.place == s.place[e.inmate.value := id] && r.asked == s.asked[e.inmate.value := e.key]
  {
    hide Valid, Inv, InOneStretch, Overlap, LockNr, Find, Detain;
    assert Valid(s.p) by { InvValid(s); }
    DetainRefines(s.p, e.key, e.inmate, e.prealloc);
    var (p', _, id) := Detain(s.p, e.key, e.inmate, e.prealloc);
    assert Proper(e.key) by { StretchProper(s.p, e.key); }
    OverlapSelf(e.key);
  }

  lemma InvValid(s: Sys)
    requires Inv(s)
    ensures Valid(s.p) && forall b :: b in s.place ==> s.place[b] in s.p.cells
  {}

  lemma LeaveIs(s: Sys, e: Event, r: Sys)
    requires Inv(s) && !e.Get? && Legal(s, e) && Step(s, e, r)
    ensures KeysStay(s, r) && forall i :: i in r.p.cells ==> i in s.p.cells
    ensures var out := Elements(Departures(s.p.cells[e.id], e)); r.place == s.place - out && r.asked == s.asked - out
  {
    hide Valid, Inv, LockNr, Erase, Departures;
    assert Valid(s.p) by { InvValid(s); }
    DropValid(s.p, e.id);
  }

  lemma AskedGet(s: Sys, e: Event, r: Sys)
    requires Inv(s) && Asked(s) && e.Get? && Legal(s, e) && Step(s, e, r)
    ensures Asked(r)
  {
    hide Inv, Step, Legal, Overlap;
    GetIs(s, e, r);
  }

  lemma AskedLeave(s: Sys, e: Event, r: Sys)
    requires Inv(s) && Inv(r) && Asked(s) && !e.Get? && Legal(s, e) && Step(s, e, r)
    ensures Asked(r)
  {
    hide Inv, Step, Overlap, Departures;
    InvValid(r);
    LeaveIs(s, e, r);
  }

  lemma AskedStep(s: Sys, e: Event, r: Sys)
    requires Inv(s) && Asked(s) && Legal(s, e) && Step(s, e, r)
    ensures Asked(r)
  {
    hide Inv, Step, Legal, Asked;
    InvStep(s, e, r);
    if e.Get? { AskedGet(s, e, r); } else { AskedLeave(s, e, r); }
  }

  ghost function KeysOf(es: seq<Event>): (s: set<Key>) { set e | e in es && e.Get? :: e.key }

  /** All cells and bios are on these keys. */
  ghost predicate Fitted(s: Sys, keys: set<Key>) {
    (forall id :: id in s.p.cells ==> s.p.cells[id].key in keys) && forall b :: b in s.asked ==> s.asked[b] in keys
  }

  lemma FittedStep(s: Sys, e: Event, r: Sys, keys: set<Key>)
    requires Inv(s) && Fitted(s, keys) && Legal(s, e) && Step(s, e, r) && (e.Get? ==> e.key in keys)
    ensures Fitted(r, keys)
  {
    hide Inv, Step, Legal, Overlap, Departures;
    InvValid(s);
    if e.Get? { GetIs(s, e, r); } else { LeaveIs(s, e, r); }
  }

  lemma {:induction false} AskedRun(s: Sys, es: seq<Event>, r: Sys, keys: set<Key>)
    requires Inv(s) && Asked(s) && Reaches(s, es, r)
    ensures Inv(r) && Asked(r)
    ensures Fitted(s, keys) && (forall e :: e in es && e.Get? ==> e.key in keys) ==> Fitted(r, keys)
    decreases |es|
  {
    if es != [] {
      assert Goes(s, es, r);
      var m :| Step(s, es[0], m) && Reaches(m, es[1..], r);
      hide Step, Legal, Inv, Asked, Fitted;
      InvStep(s, es[0], m);
      AskedStep(s, es[0], m);
      assert es[0] in es;
      if Fitted(s, keys) && (es[0].Get? ==> es[0].key in keys) { FittedStep(s, es[0], m, keys); }
      AskedRun(m, es[1..], r, keys);
    }
  }

  /** In every run on whose keys overlap is transitive, mutual exclusion holds of what the bios
      asked for: bios in different cells, holders or not, asked for nothing in common. */
  lemma HoldersApart(hash: nat -> nat, n: nat, es: seq<Event>, r: Sys, b: Bio, c: Bio)
    requires n > 0 && (forall x: nat :: hash(x) < n) && Reaches(Initial(hash, n), es, r) && Classed(KeysOf(es))
    requires b in r.place && c in r.place && r.place[b] != r.place[c]
    ensures b in r.asked && c in r.asked && !Overlap(r.asked[b], r.asked[c])
  {
    hide Reaches, Inv, Valid, Overlap, Classed;
    InvInitial(hash, n);
    assert Asked(Initial(hash, n));
    forall e | e in es && e.Get?
      ensures e.key in KeysOf(es)
    {}
    AskedRun(Initial(hash, n), es, r, KeysOf(es));
    InvValid(r);
    LiveDisjoint(r.p, r.place[b], r.place[c]);
    if Overlap(r.asked[b], r.asked[c]) {
      Chain(KeysOf(es), r.p.cells[r.place[b]].key, r.asked[b], r.asked[c], r.p.cells[r.place[c]].key);
    }
  }

  lemma Prepend(s: Sys, e: Event, m: Sys, es: seq<Event>, r: Sys)
    requires Valid(s.p) && Legal(s, e) && Step(s, e, m) && Reaches(m, es, r)
    ensures Reaches(s, [e] + es, r)
  {
    hide Valid, Legal, Step;
    assert ([e] + es)[1..] == es;
  }

  /** A bio with nothing in its way becomes the holder of a cell of its own. */
  lemma Opens(s: Sys, key: Key, b: Bio, id: CellId) returns (t: Sys)
    requires Inv(s) && InOneStretch(key) && id !in s.p.cells && b !in s.place && forall i :: i in s.p.cells ==> !Overlap(key, s.p.cells[i].key)
    ensures Valid(s.p) && Legal(s, Get(key, Some(b), id)) && Step(s, Get(key, Some(b), id), t) && Inv(t)
    ensures t.p.cells == s.p.cells[id := Cell(key, Some(b), [])] && t.place == s.place[b := id] && t.asked == s.asked[b := key]
  {
    hide Inv, Valid, InOneStretch, LockNr, Overlap, Find, Insert;
    InvValid(s);
    var e := Get(key, Some(b), id);
    DetainRefines(s.p, key, Some(b), id);
    t := Sys(Detain(s.p, key, Some(b), id).0, s.place[b := id], s.came + [b], s.left, s.asked[b := key]);
    InvStep(s, e, t);
  }

  /** A bio that overlaps the only cell waits in it. */
  lemma Joins(s: Sys, key: Key, b: Bio, id: CellId, prealloc: CellId) returns (t: Sys)
    requires Inv(s) && InOneStretch(key) && prealloc !in s.p.cells && b !in s.place && s.p.cells.Keys == {id} && Overlap(key, s.p.cells[id].key)
    ensures Valid(s.p) && Legal(s, Get(key, Some(b), prealloc)) && Step(s, Get(key, Some(b), prealloc), t) && Inv(t)
    ensures t.p.cells == s.p.cells[id := s.p.cells[id].(bios := s.p.cells[id].bios + [b])]
    ensures t.place == s.place[b := id] && t.asked == s.asked[b := key]
  {
    hide Inv, Valid, InOneStretch, LockNr, Overlap, Find, Insert;
    InvValid(s);
    var e := Get(key, Some(b), prealloc);
    DetainRefines(s.p, key, Some(b), prealloc);
    t := Sys(Detain(s.p, key, Some(b), prealloc).0, s.place[b := id], s.came + [b], s.left, s.asked[b := key]);
    InvStep(s, e, t);
  }

  /** The first inmate takes over from the holder. */
  lemma PassesOn(s: Sys, id: CellId, b: Bio) returns (t: Sys)
    requires Inv(s) && id in s.p.cells && s.p.cells[id].holder == Some(b) && s.p.cells[id].bios != []
    ensures Valid(s.p) && Legal(s, PromoteOrRelease(id)) && Step(s, PromoteOrRelease(id), t) && Inv(t)
    ensures t.p.cells == s.p.cells[id := s.p.cells[id].(holder := Some(s.p.cells[id].bios[0]), bios := s.p.cells[id].bios[1..])]
    ensures t.place == s.place - {b} && t.asked == s.asked - {b}
  {
    hide Inv, Valid, LockNr, Drop;
    InvValid(s);
    var e := PromoteOrRelease(id);
    DropValid(s.p, id);
    var out := Departures(s.p.cells[id], e);
    assert out == [b] && Elements(out) == {b};
    t := Sys(Promote(s.p, id).0, Depart(s.place, out), s.came, s.left + out, s.asked - Elements(out));
    InvStep(s, e, t);
  }

  /** Two cells are held by bios that asked for a block in common. */
  ghost predicate HoldersClash(s: Sys) {
    exists i, j, b, c ::
      && i in s.p.cells && j in s.p.cells && i != j && s.p.cells[i].holder == Some(b) && s.p.cells[j].holder == Some(c)
      && b in s.asked && c in s.asked && Overlap(s.asked[b], s.asked[c])
  }

  const TAKE_OVER: (Key, Key, Key) -> seq<Event> := (k: Key, l: Key, m: Key) =>
    [Get(k, Some(0), 0), Get(l, Some(1), 1), PromoteOrRelease(0), Get(m, Some(2), 1)]

  /** Whenever overlap is not transitive: a bio for l waits in the cell of k, takes it over, and
      one for m becomes a holder beside it. */
  lemma HoldersMeet(hash: nat -> nat, n: nat, k: Key, l: Key, m: Key) returns (r: Sys)
    requires n > 0 && (forall x: nat :: hash(x) < n) && InOneStretch(k) && InOneStretch(l) && InOneStretch(m)
    requires Overlap(k, l) && Overlap(l, m) && !Overlap(k, m)
    ensures Reaches(Initial(hash, n), TAKE_OVER(k, l, m), r) && HoldersClash(r)
  {
    hide Inv, Valid, InOneStretch, Legal, Step, Reaches, Overlap;
    OverlapBack(k, l);
    var s := Initial(hash, n);
    InvInitial(hash, n);
    var s1 := Opens(s, k, 0, 0);
    var s2 := Joins(s1, l, 1, 0, 1);
    var s3 := PassesOn(s2, 0, 0);
    if Overlap(m, k) { OverlapBack(m, k); }
    r := Opens(s3, m, 2, 1);
    ReachesNone(r);
    Prepend(s3, Get(m, Some(2), 1), r, [], r);
    Prepend(s2, PromoteOrRelease(0), s3, [Get(m, Some(2), 1)] + [], r);
    Prepend(s1, Get(l, Some(1), 1), s2, [PromoteOrRelease(0)] + ([Get(m, Some(2), 1)] + []), r);
    Prepend(s, Get(k, Some(0), 0), s1, [Get(l, Some(1), 1)] + ([PromoteOrRelease(0)] + ([Get(m, Some(2), 1)] + [])), r);
    assert [Get(k, Some(0), 0)] + ([Get(l, Some(1), 1)] + ([PromoteOrRelease(0)] + ([Get(m, Some(2), 1)] + []))) == TAKE_OVER(k, l, m);
    assert r.p.cells[0].holder == Some(1) && r.p.cells[1].holder == Some(2) && Overlap(r.asked[1], r.asked[2]);
  }

  /** In no run on these keys do holders clash. */
  ghost predicate NeverClash(hash: nat -> nat, n: nat, keys: set<Key>) {
    forall es, r :: Reaches(Initial(hash, n), es, r) && KeysOf(es) <= keys ==> !HoldersClash(r)
  }

  lemma HolderPlaced(s: Sys, i: CellId, b: Bio)
    requires Inv(s) && i in s.p.cells && s.p.cells[i].holder == Some(b)
    ensures b in s.place && s.place[b] == i
  {
    hide Valid, Balanced, NoDup;
    assert CellOk(s, i) && b in Members(s.p.cells[i]);
  }

  lemma NoClash(hash: nat -> nat, n: nat, keys: set<Key>, es: seq<Event>, r: Sys)
    requires n > 0 && (forall x: nat :: hash(x) < n) && Reaches(Initial(hash, n), es, r) && KeysOf(es) <= keys && Classed(keys)
    ensures !HoldersClash(r)
  {
    hide Reaches, Overlap, Inv, KeysOf, Classed, Initial;
    ClassedLess(keys, KeysOf(es));
    InvInitial(hash, n);
    InvRun(Initial(hash, n), es, r);
    forall i, j, b, c | i in r.p.cells && j in r.p.cells && i != j && r.p.cells[i].holder == Some(b) && r.p.cells[j].holder == Some(c)
      ensures b in r.asked && c in r.asked ==> !Overlap(r.asked[b], r.asked[c])
    {
      HolderPlaced(r, i, b);
      HolderPlaced(r, j, c);
      HoldersApart(hash, n, es, r, b, c);
    }
  }

  /** Mutual exclusion of what the holders asked for holds in every run on a set of keys exactly
      when overlap is transitive on them. */
  lemma NeverClashIff(hash: nat -> nat, n: nat, keys: set<Key>)
    requires n > 0 && (forall x: nat :: hash(x) < n) && forall k :: k in keys ==> InOneStretch(k)
    ensures NeverClash(hash, n, keys) <==> Classed(keys)
  {
    hide Overlap, HoldersClash, InOneStretch, Legal, Step, Valid;
    if Classed(keys) {
      forall es, r | Reaches(Initial(hash, n), es, r) && KeysOf(es) <= keys
        ensures !HoldersClash(r)
      {
        NoClash(hash, n, keys, es, r);
      }
    } else {
      var k, l, m :| k in keys && l in keys && m in keys && Overlap(k, l) && Overlap(l, m) && !Overlap(k, m);
      var r := HoldersMeet(hash, n, k, l, m);
      assert KeysOf(TAKE_OVER(k, l, m)) <= keys;
    }
  }

  lemma ReachesNone(s: Sys)
    ensures Reaches(s, [], s)
  {}

  /* ---------- first come, first served ---------- */

  /** The members of every cell are in the order in which they came. */
  ghost predicate Lined(s: Sys) { forall id :: id in s.p.cells ==> InOrder(Members(s.p.cells[id]), s.came) }

  lemma LinedGet(s: Sys, e: Event, r: Sys)
    requires Inv(s) && Lined(s) && e.Get? && Legal(s, e) && Step(s, e, r)
    ensures Lined(r)
  {
    hide Valid, Balanced, NoDup, InOneStretch, Overlap, LockNr, Find, Insert, InOrder, Arrival;
    DetainRefines(s.p, e.key, e.inmate, e.prealloc);
    forall i | i in r.p.cells
      ensures InOrder(Members(r.p.cells[i]), r.came)
    {
      if i in s.p.cells { assert CellOk(s, i); }
      if e.inmate.Some? { LinedCell(s, e.inmate.value, r, i); } else if i !in s.p.cells { AloneInOrder(Members(r.p.cells[i]), r.came); }
    }
  }

  lemma AloneInOrder(line: seq<Bio>, came: seq<Bio>)
    requires |line| <= 1
    ensures InOrder(line, came)
  {}

  lemma LinedCell(s: Sys, b: Bio, r: Sys, i: CellId)
    requires i in r.p.cells && r.came == s.came + [b]
    requires i in s.p.cells ==> InOrder(Members(s.p.cells[i]), s.came) && b !in Members(s.p.cells[i])
    requires i in s.p.cells ==> r.p.cells[i] == s.p.cells[i] || r.p.cells[i] == s.p.cells[i].(bios := s.p.cells[i].bios + [b])
    requires i !in s.p.cells ==> |Members(r.p.cells[i])| <= 1
    ensures InOrder(Members(r.p.cells[i]), r.came)
  {
    hide InOrder, Arrival;
    if i in s.p.cells {
      Queues(Members(s.p.cells[i]), s.came, b);
      assert Members(s.p.cells[i].(bios := s.p.cells[i].bios + [b])) == Members(s.p.cells[i]) + [b];
    } else {
      AloneInOrder(Members(r.p.cells[i]), r.came);
    }
  }

  lemma LinedLeave(s: Sys, e: Event, r: Sys)
    requires Inv(s) && Lined(s) && !e.Get? && Legal(s, e) && Step(s, e, r)
    ensures Lined(r)
  {
    hide Valid, Balanced, NoDup, LockNr, Erase, InOrder, CellOk;
    DropValid(s.p, e.id);
    var c := s.p.cells[e.id];
    if e.PromoteOrRelease? && c.bios != [] {
      PassOnMembers(c);
      SuffixInOrder(Departures(c, PromoteOrRelease(0)), c.bios, s.came);
    }
  }

  lemma {:induction false} LinedRun(s: Sys, es: seq<Event>, r: Sys)
    requires Inv(s) && Lined(s) && Reaches(s, es, r)
    ensures Inv(r) && Lined(r)
    decreases |es|
  {
    if es != [] {
      assert Goes(s, es, r);
      var m :| Step(s, es[0], m) && Reaches(m, es[1..], r);
      hide Step, Legal, Inv, Lined;
      InvStep(s, es[0], m);
      if es[0].Get? { LinedGet(s, es[0], m); } else { LinedLeave(s, es[0], m); }
      LinedRun(m, es[1..], r);
    }
  }

  /** In every run a cell is passed on to the inmate that came first and the rest stay, and it goes
      exactly when it has no inmates; the answer is 1 exactly then. */
  lemma FirstCome(hash: nat -> nat, n: nat, es: seq<Event>, s: Sys, id: CellId, r: Sys)
    requires n > 0 && (forall x: nat :: hash(x) < n) && Reaches(Initial(hash, n), es, s) && id in s.p.cells
    requires Valid(s.p) && Step(s, PromoteOrRelease(id), r)
    ensures LockNr(s.p, s.p.cells[id].key) < |s.p.regions|
    ensures (Promote(s.p, id).1 == 1 <==> id !in r.p.cells) && (id !in r.p.cells <==> s.p.cells[id].bios == [])
    ensures id in r.p.cells ==>
              var h, h' := s.p.cells[id].holder, r.p.cells[id].holder;
              && h'.Some? && Elements(Members(r.p.cells[id])) == Elements(Members(s.p.cells[id])) - (if h.Some? then {h.value} else {})
              && forall b :: b in Members(r.p.cells[id]) ==> Arrival(s.came, h'.value) <= Arrival(s.came, b)
  {
    hide Reaches, Valid, LockNr, Erase, Arrival;
    InvInitial(hash, n);
    assert Lined(Initial(hash, n));
    LinedRun(Initial(hash, n), es, s);
    DropValid(s.p, id);
    var c := s.p.cells[id];
    if c.bios != [] {
      assert CellOk(s, id);
      PassOnMembers(c);
      var out := Departures(c, PromoteOrRelease(0));
      SuffixInOrder(out, c.bios, s.came);
      assert forall b :: b in out ==> b !in c.bios by { SplitNoDup(out, c.bios); }
    }
  }

  lemma SplitNoDup(s: seq<Bio>, t: seq<Bio>)
    requires NoDup(s + t)
    ensures forall b :: b in s ==> b !in t
  {
    var u := s + t;
    forall i, j | 0 <= i < |s| && 0 <= j < |t|
      ensures s[i] != t[j]
    {
      assert u[i] == s[i] && u[|s| + j] == t[j];
    }
  }

  /** In every run a released cell is gone, and its bios come out in the order in which they came. */
  lemma ReleasedInOrder(hash: nat -> nat, n: nat, es: seq<Event>, s: Sys, id: CellId, r: Sys)
    requires n > 0 && (forall x: nat :: hash(x) < n) && Reaches(Initial(hash, n), es, s) && id in s.p.cells
    requires Valid(s.p) && Step(s, Release(id), r)
    ensures id !in r.p.cells && s.left <= r.left && InOrder(r.left[|s.left|..], s.came)
    ensures forall b :: b in r.left[|s.left|..] <==> b in s.place && s.place[b] == id
  {
    hide Reaches, Valid, LockNr, Erase, InOrder;
    InvInitial(hash, n);
    assert Lined(Initial(hash, n));
    LinedRun(Initial(hash, n), es, s);
    DropValid(s.p, id);
    assert CellOk(s, id);
    assert r.left[|s.left|..] == Members(s.p.cells[id]);
  }


  /** struct dm_bio_prison, with its cells. */
  class DmBioPrison {
    const hash: nat -> nat
    var regions: seq<Tree>
    var cells: map<CellId, Cell>

    ghost function State(): Prison
      reads this
    {
      Prison(hash, regions, cells)
    }

    /** dm_bio_prison_create. */
    constructor (hash: nat -> nat, numLocks: nat)
      requires numLocks > 0 && forall x: nat :: hash(x) < numLocks
      ensures State() == Prison(hash, seq(numLocks, i => Leaf), map[]) && Valid(State())
    {
      this.hash := hash;
      regions := seq(numLocks, i => Leaf);
      cells := map[];
    }

    /** __bio_detain: the walk down the tree, then joining or linking. */
    method BioDetain(key: Key, inmate: Option<Bio>, prealloc: CellId) returns (r: int, id: CellId)
      requires Valid(State()) && InOneStretch(key) && prealloc !in cells
      modifies this
      ensures Valid(State())
      ensures FlatDetain(old(cells), key, inmate, prealloc, cells, r, id)
    {
      hide Valid, InOneStretch, FlatDetain, Insert;
      DetainRefines(State(), key, inmate, prealloc);
      ghost var p := State();
      var l := hash(key.lo / MAX_RANGE);
      var t := regions[l];
      while t.Node?
        invariant State() == p && Find(t, key) == Find(p.regions[l], key)
        decreases t
      {
        var c := Cmp(key, t.entry.key);
        if c < 0 {
          t := t.left;
        } else if c > 0 {
          t := t.right;
        } else {
          id := t.entry.id;
          if inmate.Some? {
            cells := cells[id := cells[id].(bios := cells[id].bios + [inmate.value])];
          } else {
            cells := cells[id := cells[id]];
          }
          assert (State(), 1, id) == Detain(p, key, inmate, prealloc);
          return 1, id;
        }
      }
      regions := regions[l := Insert(regions[l], Entry(key, prealloc))];
      cells := cells[prealloc := Cell(key, inmate, [])];
      assert (State(), 0, prealloc) == Detain(p, key, inmate, prealloc);
      return 0, prealloc;
    }

    /** dm_cell_release and dm_cell_release_no_holder: the bios handed back. */
    method CellRelease(id: CellId, withHolder: bool) returns (out: seq<Bio>)
      requires Valid(State()) && id in cells
      modifies this
      ensures Valid(State()) && cells == old(cells) - {id}
      ensures out == if withHolder then Members(old(cells[id])) else old(cells[id].bios)
    {
      hide Valid, Erase;
      DropValid(State(), id);
      var c := cells[id];
      var l := hash(c.key.lo / MAX_RANGE);
      ghost var q := Drop(State(), id);
      regions := regions[l := Erase(regions[l], c.key)];
      cells := cells - {id};
      assert State() == q;
      out := if withHolder then Members(c) else c.bios;
    }

    /** dm_cell_promote_or_release. */
    method CellPromoteOrRelease(id: CellId) returns (r: int)
      requires Valid(State()) && id in cells
      modifies this
      ensures Valid(State())
      ensures LockNr(old(State()), old(cells[id].key)) < |old(regions)| && (State(), r) == Promote(old(State()), id)
    {
      hide Valid, Erase;
      DropValid(State(), id);
      var c := cells[id];
      ghost var p := State();
      if c.bios == [] {
        var l := hash(c.key.lo / MAX_RANGE);
        regions := regions[l := Erase(regions[l], c.key)];
        cells := cells - {id};
        assert State() == Drop(p, id);
        return 1;
      }
      SameKeyValid(p, id, c.(holder := Some(c.bios[0]), bios := c.bios[1..]));
      cells := cells[id := c.(holder := Some(c.bios[0]), bios := c.bios[1..])];
      return 0;
    }
  }
}
