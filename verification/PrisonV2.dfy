/** The shared/exclusive bio prison of md/dm-bio-prison-v2.c. */
module PrisonV2 {
  import opened Collections
  import opened CellTree

  type Bio = nat
  type Work = nat
  type Grant = nat

  const EBUSY := 16
  const EINVAL := 22

  datatype Cell = Cell(key: Key, exclusive: bool, level: nat, shared: nat, cont: Option<Work>, bios: seq<Bio>)

  /** queue is the workqueue, in the order of queue_work. */
  datatype Prison = Prison(tree: Tree, cells: map<CellId, Cell>, queue: seq<Work>)

  /** The tree holds exactly the live cells. */
  ghost predicate Valid(p: Prison) {
    && Ordered(p.tree)
    && (forall e :: e in Entries(p.tree) ==> e.id in p.cells && p.cells[e.id].key == e.key)
    && (forall id :: id in p.cells ==> Proper(p.cells[id].key) && Entry(p.cells[id].key, id) in Entries(p.tree))
  }

  /** The walk meets only live cells. */
  ghost predicate Walkable(p: Prison, key: Key) {
    Find(p.tree, key).Some? ==> Find(p.tree, key).value in p.cells
  }

  lemma WalkFinds(p: Prison, key: Key)
    requires Valid(p) && Proper(key)
    ensures Walkable(p, key)
    ensures Find(p.tree, key).None? <==> forall i :: i in p.cells ==> !Overlap(key, p.cells[i].key)
    ensures Find(p.tree, key).Some? ==> Overlap(key, p.cells[Find(p.tree, key).value].key)
  {
    hide Overlap, Ordered;
    FindOverlap(p.tree, key);
    forall i | i in p.cells && Overlap(key, p.cells[i].key)
      ensures Find(p.tree, key).Some?
    {
      assert Entry(p.cells[i].key, i) in Entries(p.tree);
    }
  }

  /* ---------- the operations ---------- */

  function Link(p: Prison, id: CellId, c: Cell): (r: Prison) {
    p.(tree := Insert(p.tree, Entry(c.key, id)), cells := p.cells[id := c])
  }

  function Drop(p: Prison, id: CellId): (r: Prison)
    requires id in p.cells
  {
    p.(tree := Erase(p.tree, p.cells[id].key), cells := p.cells - {id})
  }

  function Put(p: Prison, id: CellId, c: Cell): (r: Prison) { p.(cells := p.cells[id := c]) }

  /** An exclusive lock that keeps out shared locks of this level. */
  predicate Excludes(c: Cell, level: nat) { c.exclusive && level <= c.level }

  /** __get: a shared lock, or the bio is parked. */
  function GetShared(p: Prison, key: Key, level: nat, inmate: Bio, prealloc: CellId): (r: (Prison, bool, CellId))
    requires Walkable(p, key)
  {
    match Find(p.tree, key)
    case Some(id) =>
      var c := p.cells[id];
      if Excludes(c, level) then (Put(p, id, c.(bios := c.bios + [inmate])), false, id)
      else (Put(p, id, c.(shared := c.shared + 1)), true, id)
    case None => (Link(p, prealloc, Cell(key, false, 0, 1, None, [])), true, prealloc)
  }

  /** __put: true hands the cell back to the caller. */
  function PutShared(p: Prison, id: CellId): (r: (Prison, bool))
    requires id in p.cells && p.cells[id].shared > 0
  {
    var c := p.cells[id].(shared := p.cells[id].shared - 1);
    if c.shared > 0 then (Put(p, id, c), false)
    else if !c.exclusive then (Drop(p, id), true)
    else if c.cont.Some? then (Put(p, id, c.(cont := None)).(queue := p.queue + [c.cont.value]), false)
    else (Put(p, id, c), false)
  }

  /** __lock: 0 or 1 (quiescing needed) and the cell, or -EBUSY and none. */
  function LockExclusive(p: Prison, key: Key, level: nat, prealloc: CellId): (r: (Prison, int, Option<CellId>))
    requires Walkable(p, key)
  {
    match Find(p.tree, key)
    case Some(id) =>
      var c := p.cells[id];
      if c.exclusive then (p, -EBUSY, None)
      else (Put(p, id, c.(exclusive := true, level := level)), if c.shared > 0 then 1 else 0, Some(id))
    case None => (Link(p, prealloc, Cell(key, true, level, 0, None, [])), 0, Some(prealloc))
  }

  /** __quiesce. */
  function Quiesce(p: Prison, id: CellId, w: Work): (r: Prison)
    requires id in p.cells
  {
    var c := p.cells[id];
    if c.shared == 0 then p.(queue := p.queue + [w]) else Put(p, id, c.(cont := Some(w)))
  }

  /** __promote. */
  function PromoteLock(p: Prison, id: CellId, level: nat): (r: (Prison, int))
    requires id in p.cells
  {
    var c := p.cells[id];
    if !c.exclusive then (p, -EINVAL)
    else (Put(p, id, c.(level := level)), if c.shared > 0 then 1 else 0)
  }

  /** __unlock: the parked bios, and whether the cell is handed back. */
  function Unlock(p: Prison, id: CellId): (r: (Prison, seq<Bio>, bool))
    requires id in p.cells && p.cells[id].exclusive
  {
    var c := p.cells[id];
    if c.shared > 0 then (Put(p, id, c.(exclusive := false, bios := [])), c.bios, false)
    else (Drop(p, id), c.bios, true)
  }

  /* ---------- the tree stays in step ---------- */

  lemma PutValid(p: Prison, id: CellId, c: Cell)
    requires Valid(p) && id in p.cells && c.key == p.cells[id].key
    ensures Valid(Put(p, id, c))
  {
    hide Ordered, Entries;
  }

  lemma LinkValid(p: Prison, id: CellId, c: Cell)
    requires Valid(p) && id !in p.cells && Proper(c.key) && Find(p.tree, c.key).None?
    ensures Valid(Link(p, id, c))
  {
    hide Ordered, Entries, Cmp, Overlap, Insert, Find;
    FindOverlap(p.tree, c.key);
    forall e | e in Entries(p.tree)
      ensures Cmp(c.key, e.key) != 0
    {
      CmpIsOverlap(c.key, e.key);
    }
    InsertKeeps(p.tree, Entry(c.key, id));
  }

  lemma DropValid(p: Prison, id: CellId)
    requires Valid(p) && id in p.cells
    ensures Valid(Drop(p, id))
  {
    hide Ordered, Entries, Erase;
    var n := Entry(p.cells[id].key, id);
    EraseKeeps(p.tree, n);
    forall e | e in Entries(Drop(p, id).tree)
      ensures e.id in Drop(p, id).cells && Drop(p, id).cells[e.id].key == e.key
    {
      assert e in Entries(p.tree) && e != n;
    }
  }

  /* ---------- runs, with their history ---------- */

  datatype WorkPlace = Waiting(id: CellId) | Queued | Lost

  /** What a holder asked for, which need not be what its cell covers. */
  datatype Request = Request(key: Key, level: nat)

  /** The requests behind the shares and the locks that are out, and the locks whose owner has
      been told that the sharers are gone: by the answer 0, or by its continuation. */
  datatype Requests = Requests(asked: map<Grant, Request>, locks: map<CellId, Request>, told: set<CellId>)

  /** Who holds what: shared grants, exclusive owners, the cell of each parked bio, and where
      each continuation is; parked and returned list the bios parked and handed back, in order.
      A bio that was returned may be parked again. */
  datatype Sys = Sys(p: Prison, shares: map<Grant, CellId>, owners: set<CellId>,
                     bioAt: map<Bio, CellId>, parked: seq<Bio>, returned: seq<Bio>, contAt: map<Work, WorkPlace>,
                     req: Requests)

  datatype Event =
    | GetEv(key: Key, level: nat, inmate: Bio, prealloc: CellId, g: Grant)
    | PutEv(g: Grant)
    | LockEv(key: Key, level: nat, prealloc: CellId)
    | QuiesceEv(id: CellId, w: Work)
    | PromoteEv(id: CellId, level: nat)
    | UnlockEv(id: CellId)

  /** Clients put and unlock what they hold. */
  ghost predicate Legal(s: Sys, e: Event) {
    match e
    case GetEv(key, _, inmate, prealloc, g) => Proper(key) && prealloc !in s.p.cells && inmate !in s.bioAt && g !in s.shares
    case PutEv(g) => g in s.shares && s.shares[g] in s.p.cells && s.p.cells[s.shares[g]].shared > 0
    case LockEv(key, _, prealloc) => Proper(key) && prealloc !in s.p.cells
    case QuiesceEv(id, w) => id in s.p.cells && w !in s.contAt
    case PromoteEv(id, _) => id in s.p.cells
    case UnlockEv(id) => id in s.owners && id in s.p.cells && s.p.cells[id].exclusive
  }

  ghost function Step(s: Sys, e: Event): (r: Sys)
    requires Valid(s.p) && Legal(s, e)
  {
    Change(s, e).(req := Record(s, e))
  }

  /** The requests after the step. */
  ghost function Record(s: Sys, e: Event): (r: Requests)
    requires Valid(s.p) && Legal(s, e)
  {
    var q := s.req;
    match e
    case GetEv(key, level, inmate, prealloc, g) =>
      WalkFinds(s.p, key);
      if GetShared(s.p, key, level, inmate, prealloc).1 then q.(asked := q.asked[g := Request(key, level)]) else q
    case PutEv(g) =>
      var id := s.shares[g];
      var c := s.p.cells[id];
      q.(asked := q.asked - {g}, told := if c.shared == 1 && c.exclusive && c.cont.Some? then q.told + {id} else q.told)
    case LockEv(key, level, prealloc) =>
      WalkFinds(s.p, key);
      var (_, r, id) := LockExclusive(s.p, key, level, prealloc);
      if id.None? then q
      else q.(locks := q.locks[id.value := Request(key, level)], told := if r == 0 then q.told + {id.value} else q.told - {id.value})
    case QuiesceEv(id, _) =>
      q.(told := if s.p.cells[id].shared == 0 && s.p.cells[id].exclusive then q.told + {id} else q.told)
    case PromoteEv(id, level) =>
      if !s.p.cells[id].exclusive || id !in q.locks then q
      else q.(locks := q.locks[id := q.locks[id].(level := level)],
              told := if PromoteLock(s.p, id, level).1 == 0 then q.told + {id} else q.told - {id})
    case UnlockEv(id) => q.(locks := q.locks - {id}, told := q.told - {id})
  }

  /** Everything else after the step. */
  ghost function Change(s: Sys, e: Event): (r: Sys)
    requires Valid(s.p) && Legal(s, e)
  {
    match e
    case GetEv(key, level, inmate, prealloc, g) =>
      WalkFinds(s.p, key);
      var (p, granted, id) := GetShared(s.p, key, level, inmate, prealloc);
      if granted then s.(p := p, shares := s.shares[g := id]) else s.(p := p, bioAt := s.bioAt[inmate := id], parked := s.parked + [inmate])
    case PutEv(g) =>
      var id := s.shares[g];
      var c := s.p.cells[id];
      var p := PutShared(s.p, id).0;
      s.(p := p, shares := s.shares - {g},
         contAt := if c.cont.Some? && c.shared == 1 then s.contAt[c.cont.value := if c.exclusive then Queued else Lost] else s.contAt)
    case LockEv(key, level, prealloc) =>
      WalkFinds(s.p, key);
      var (p, _, id) := LockExclusive(s.p, key, level, prealloc);
      s.(p := p, owners := if id.Some? then s.owners + {id.value} else s.owners)
    case QuiesceEv(id, w) =>
      var c := s.p.cells[id];
      var others := if c.shared > 0 && c.cont.Some? then s.contAt[c.cont.value := Lost] else s.contAt;
      s.(p := Quiesce(s.p, id, w), contAt := others[w := if c.shared == 0 then Queued else Waiting(id)])
    case PromoteEv(id, level) => s.(p := PromoteLock(s.p, id, level).0)
    case UnlockEv(id) =>
      var (p, out, _) := Unlock(s.p, id);
      s.(p := p, owners := s.owners - {id}, returned := s.returned + out,
         bioAt := s.bioAt - Elements(out))
  }

  ghost function Sharers(shares: map<Grant, CellId>, id: CellId): (s: set<Grant>) { set g | g in shares && shares[g] == id }

  /** A cell is live exactly when it is held, and it counts its sharers. */
  ghost predicate Held(cells: map<CellId, Cell>, shares: map<Grant, CellId>, owners: set<CellId>) {
    && (forall id :: id in cells ==>
          && cells[id].shared == |Sharers(shares, id)| && (cells[id].exclusive <==> id in owners)
          && (cells[id].shared > 0 || cells[id].exclusive))
    && (forall g :: g in shares ==> shares[g] in cells)
    && owners <= cells.Keys
  }

  /** Only an exclusive lock parks bios; each parked bio is in one cell, once, and every earlier
      parking of any bio has ended in one return. */
  ghost predicate Parking(cells: map<CellId, Cell>, bioAt: map<Bio, CellId>, parked: seq<Bio>, returned: seq<Bio>) {
    && (forall id :: id in cells ==>
          && (!cells[id].exclusive ==> cells[id].bios == []) && NoDup(cells[id].bios)
          && (forall b :: b in cells[id].bios <==> b in bioAt && bioAt[b] == id))
    && (forall b :: b in bioAt ==> bioAt[b] in cells)
    && Balanced(parked, returned, bioAt.Keys)
  }

  /** A continuation waits in one cell that has sharers left, until it is queued, once, or
      lost. */
  ghost predicate Continuing(cells: map<CellId, Cell>, contAt: map<Work, WorkPlace>, queue: seq<Work>) {
    && (forall id :: id in cells ==>
          && (cells[id].cont.Some? ==> cells[id].shared > 0)
          && (forall w :: cells[id].cont == Some(w) <==> w in contAt && contAt[w] == Waiting(id)))
    && (forall w :: w in contAt && contAt[w].Waiting? ==> contAt[w].id in cells)
    && NoDup(queue) && (forall w :: w in queue <==> w in contAt && contAt[w] == Queued)
  }

  ghost predicate Inv(s: Sys) {
    && Valid(s.p) && Held(s.p.cells, s.shares, s.owners)
    && Parking(s.p.cells, s.bioAt, s.parked, s.returned) && Continuing(s.p.cells, s.contAt, s.p.queue)
  }

  lemma SharersGrow(shares: map<Grant, CellId>, g: Grant, id: CellId)
    requires g !in shares
    ensures |Sharers(shares[g := id], id)| == |Sharers(shares, id)| + 1
    ensures forall i :: i != id ==> Sharers(shares[g := id], i) == Sharers(shares, i)
  {
    assert Sharers(shares[g := id], id) == Sharers(shares, id) + {g};
  }

  lemma SharersShrink(shares: map<Grant, CellId>, g: Grant)
    requires g in shares
    ensures |Sharers(shares - {g}, shares[g])| == |Sharers(shares, shares[g])| - 1
    ensures forall i :: i != shares[g] ==> Sharers(shares - {g}, i) == Sharers(shares, i)
  {
    assert Sharers(shares - {g}, shares[g]) == Sharers(shares, shares[g]) - {g};
  }

  /* ---------- who holds a cell ---------- */

  /** Cell id is new or changed. */
  lemma HeldPut(cells: map<CellId, Cell>, shares: map<Grant, CellId>, owners: set<CellId>,
                id: CellId, c: Cell, shares': map<Grant, CellId>, owners': set<CellId>)
    requires Held(cells, shares, owners)
    requires c.shared == |Sharers(shares', id)| && (c.exclusive <==> id in owners') && (c.shared > 0 || c.exclusive)
    requires forall i :: i != id ==> Sharers(shares', i) == Sharers(shares, i) && (i in owners' <==> i in owners)
    requires forall g :: g in shares' ==> shares'[g] in cells || shares'[g] == id
    ensures Held(cells[id := c], shares', owners')
  {
    hide Sharers;
  }

  lemma HeldSame(cells: map<CellId, Cell>, shares: map<Grant, CellId>, owners: set<CellId>, id: CellId, c: Cell)
    requires Held(cells, shares, owners) && id in cells
    requires c.shared == cells[id].shared && c.exclusive == cells[id].exclusive
    ensures Held(cells[id := c], shares, owners)
  {
    hide Sharers;
  }

  /** Cell id has lost its last holder. */
  lemma HeldDrop(cells: map<CellId, Cell>, shares: map<Grant, CellId>, owners: set<CellId>,
                 id: CellId, shares': map<Grant, CellId>, owners': set<CellId>)
    requires Held(cells, shares, owners) && Sharers(shares', id) == {} && id !in owners'
    requires forall i :: i != id ==> Sharers(shares', i) == Sharers(shares, i) && (i in owners' <==> i in owners)
    requires forall g :: g in shares' ==> g in shares && shares'[g] == shares[g]
    ensures Held(cells - {id}, shares', owners')
  {
    forall g | g in shares'
      ensures shares'[g] in cells - {id}
    {
      assert g !in Sharers(shares', id);
    }
    hide Sharers;
  }

  lemma NoSharers(cells: map<CellId, Cell>, shares: map<Grant, CellId>, owners: set<CellId>, id: CellId)
    requires Held(cells, shares, owners) && id !in cells
    ensures Sharers(shares, id) == {}
  {}

  /* ---------- parked bios ---------- */

  lemma ParkingSame(cells: map<CellId, Cell>, bioAt: map<Bio, CellId>, parked: seq<Bio>, returned: seq<Bio>, id: CellId, c: Cell)
    requires Parking(cells, bioAt, parked, returned)
    requires c.bios == (if id in cells then cells[id].bios else []) && (!c.exclusive ==> c.bios == [])
    ensures Parking(cells[id := c], bioAt, parked, returned)
  {
    assert NoDup([]);
    hide NoDup, Balanced;
  }

  lemma ParkingPark(cells: map<CellId, Cell>, bioAt: map<Bio, CellId>, parked: seq<Bio>, returned: seq<Bio>, id: CellId, b: Bio)
    requires Parking(cells, bioAt, parked, returned) && id in cells && cells[id].exclusive && b !in bioAt
    ensures Parking(cells[id := cells[id].(bios := cells[id].bios + [b])], bioAt[b := id], parked + [b], returned)
  {
    hide NoDup, Balanced;
    PushNoDup(cells[id].bios, b);
    Comes(parked, returned, bioAt.Keys, b);
    assert bioAt[b := id].Keys == bioAt.Keys + {b};
  }

  /** The bios of cell id go back; the cell stays, without them, or goes. */
  lemma ParkingReturn(cells: map<CellId, Cell>, bioAt: map<Bio, CellId>, parked: seq<Bio>, returned: seq<Bio>, id: CellId, c: Option<Cell>)
    requires Parking(cells, bioAt, parked, returned) && id in cells && (c.Some? ==> c.value.bios == [])
    ensures Parking(if c.Some? then cells[id := c.value] else cells - {id}, bioAt - Elements(cells[id].bios), parked, returned + cells[id].bios)
  {
    assert NoDup([]);
    hide NoDup, Balanced;
    var out := cells[id].bios;
    Go(parked, returned, bioAt.Keys, out);
    assert (bioAt - Elements(out)).Keys == bioAt.Keys - Elements(out);
  }

  lemma ParkingDrop(cells: map<CellId, Cell>, bioAt: map<Bio, CellId>, parked: seq<Bio>, returned: seq<Bio>, id: CellId)
    requires Parking(cells, bioAt, parked, returned) && id in cells && cells[id].bios == []
    ensures Parking(cells - {id}, bioAt, parked, returned)
  {
    hide NoDup, Balanced;
  }

  /* ---------- continuations ---------- */

  lemma ContinuingSame(cells: map<CellId, Cell>, contAt: map<Work, WorkPlace>, queue: seq<Work>, id: CellId, c: Cell)
    requires Continuing(cells, contAt, queue)
    requires c.cont == (if id in cells then cells[id].cont else None) && (c.cont.Some? ==> c.shared > 0)
    ensures Continuing(cells[id := c], contAt, queue)
  {
    hide NoDup;
  }

  lemma ContinuingWait(cells: map<CellId, Cell>, contAt: map<Work, WorkPlace>, queue: seq<Work>, id: CellId, w: Work)
    requires Continuing(cells, contAt, queue) && id in cells && w !in contAt && cells[id].shared > 0
    ensures var others := if cells[id].cont.Some? then contAt[cells[id].cont.value := Lost] else contAt;
            Continuing(cells[id := cells[id].(cont := Some(w))], others[w := Waiting(id)], queue)
  {
    hide NoDup;
  }

  lemma ContinuingNow(cells: map<CellId, Cell>, contAt: map<Work, WorkPlace>, queue: seq<Work>, w: Work)
    requires Continuing(cells, contAt, queue) && w !in contAt
    ensures Continuing(cells, contAt[w := Queued], queue + [w])
  {
    hide NoDup;
    PushNoDup(queue, w);
  }

  /** The waiting continuation is queued. */
  lemma ContinuingQueue(cells: map<CellId, Cell>, contAt: map<Work, WorkPlace>, queue: seq<Work>, id: CellId, c: Cell)
    requires Continuing(cells, contAt, queue) && id in cells && cells[id].cont.Some? && c.cont.None?
    ensures Continuing(cells[id := c], contAt[cells[id].cont.value := Queued], queue + [cells[id].cont.value])
  {
    hide NoDup;
    PushNoDup(queue, cells[id].cont.value);
  }

  /** The cell goes, and with it what waited there. */
  lemma ContinuingLose(cells: map<CellId, Cell>, contAt: map<Work, WorkPlace>, queue: seq<Work>, id: CellId)
    requires Continuing(cells, contAt, queue) && id in cells && cells[id].cont.Some?
    ensures Continuing(cells - {id}, contAt[cells[id].cont.value := Lost], queue)
  {
    hide NoDup;
  }

  lemma ContinuingDrop(cells: map<CellId, Cell>, contAt: map<Work, WorkPlace>, queue: seq<Work>, id: CellId)
    requires Continuing(cells, contAt, queue) && id in cells && cells[id].cont.None?
    ensures Continuing(cells - {id}, contAt, queue)
  {
    hide NoDup;
  }

  /* ---------- each step keeps the invariant ---------- */

  lemma GetKeeps(s: Sys, e: Event)
    requires Inv(s) && e.GetEv? && Legal(s, e)
    ensures Inv(Change(s, e))
  {
    hide Inv, Find;
    assert Valid(s.p) by { InvValid(s); }
    WalkFinds(s.p, e.key);
    match Find(s.p.tree, e.key)
    case Some(id) => if Excludes(s.p.cells[id], e.level) { ParkKeeps(s, id, e.inmate); } else { ShareKeeps(s, id, e.g); }
    case None => OpenKeeps(s, e.prealloc, e.key, e.g);
  }

  lemma InvValid(s: Sys)
    requires Inv(s)
    ensures Valid(s.p)
  {}

  /** The request is kept out and its bio parked. */
  lemma ParkKeeps(s: Sys, id: CellId, b: Bio)
    requires Inv(s) && id in s.p.cells && s.p.cells[id].exclusive && b !in s.bioAt
    ensures Inv(s.(p := Put(s.p, id, s.p.cells[id].(bios := s.p.cells[id].bios + [b])), bioAt := s.bioAt[b := id], parked := s.parked + [b]))
  {
    hide Valid, Held, Parking, Continuing;
    var c := s.p.cells[id].(bios := s.p.cells[id].bios + [b]);
    PutValid(s.p, id, c);
    HeldSame(s.p.cells, s.shares, s.owners, id, c);
    ParkingPark(s.p.cells, s.bioAt, s.parked, s.returned, id, b);
    KeptCont(s, id, c);
  }

  /** One more sharer of a live cell. */
  lemma ShareKeeps(s: Sys, id: CellId, g: Grant)
    requires Inv(s) && id in s.p.cells && g !in s.shares
    ensures Inv(s.(p := Put(s.p, id, s.p.cells[id].(shared := s.p.cells[id].shared + 1)), shares := s.shares[g := id]))
  {
    hide Valid, Sharers, Parking, Continuing;
    var c := s.p.cells[id].(shared := s.p.cells[id].shared + 1);
    PutValid(s.p, id, c);
    SharersGrow(s.shares, g, id);
    HeldPut(s.p.cells, s.shares, s.owners, id, c, s.shares[g := id], s.owners);
    KeptBios(s, id, c);
    KeptCont(s, id, c);
  }

  /** A new cell with one sharer. */
  lemma OpenKeeps(s: Sys, id: CellId, key: Key, g: Grant)
    requires Inv(s) && id !in s.p.cells && g !in s.shares && Proper(key) && Find(s.p.tree, key).None?
    ensures Inv(s.(p := Link(s.p, id, Cell(key, false, 0, 1, None, [])), shares := s.shares[g := id]))
  {
    hide Valid, Sharers, Parking, Continuing, Insert, Find;
    var c := Cell(key, false, 0, 1, None, []);
    LinkValid(s.p, id, c);
    SharersGrow(s.shares, g, id);
    NoSharers(s.p.cells, s.shares, s.owners, id);
    HeldPut(s.p.cells, s.shares, s.owners, id, c, s.shares[g := id], s.owners);
    ParkingSame(s.p.cells, s.bioAt, s.parked, s.returned, id, c);
    ContinuingSame(s.p.cells, s.contAt, s.p.queue, id, c);
  }

  /** A change that keeps the lock mode keeps the parked bios. */
  lemma KeptBios(s: Sys, id: CellId, c: Cell)
    requires Inv(s) && id in s.p.cells && c.bios == s.p.cells[id].bios && (c.exclusive == s.p.cells[id].exclusive || c.exclusive)
    ensures Parking(s.p.cells[id := c], s.bioAt, s.parked, s.returned)
  {
    hide Valid, Continuing, Held, NoDup;
    ParkingSame(s.p.cells, s.bioAt, s.parked, s.returned, id, c);
  }

  /** A change that does not empty the sharers keeps the continuation. */
  lemma KeptCont(s: Sys, id: CellId, c: Cell)
    requires Inv(s) && id in s.p.cells && c.cont == s.p.cells[id].cont
    requires c.cont.Some? && s.p.cells[id].shared > 0 ==> c.shared > 0
    ensures Continuing(s.p.cells[id := c], s.contAt, s.p.queue)
  {
    hide Valid, Parking, Held, NoDup;
    ContinuingSame(s.p.cells, s.contAt, s.p.queue, id, c);
  }

  lemma PutKeeps(s: Sys, e: Event)
    requires Inv(s) && e.PutEv? && Legal(s, e)
    ensures Inv(Change(s, e))
  {
    hide Valid, Sharers, NoDup, Erase, Parking, Continuing;
    var id := s.shares[e.g];
    var c := s.p.cells[id];
    var c' := c.(shared := c.shared - 1);
    SharersShrink(s.shares, e.g);
    if !c.exclusive { Unlocked(s, id); }
    if c.shared == 1 && !c.exclusive {
      DropValid(s.p, id);
      assert |Sharers(s.shares - {e.g}, id)| == 0;
      HeldDrop(s.p.cells, s.shares, s.owners, id, s.shares - {e.g}, s.owners);
      ParkingDrop(s.p.cells, s.bioAt, s.parked, s.returned, id);
      if c.cont.Some? {
        ContinuingLose(s.p.cells, s.contAt, s.p.queue, id);
      } else {
        ContinuingDrop(s.p.cells, s.contAt, s.p.queue, id);
      }
    } else {
      var n := if c.shared == 1 then c'.(cont := None) else c';
      PutValid(s.p, id, n);
      QueueValid(Put(s.p, id, n), if c.cont.Some? then s.p.queue + [c.cont.value] else s.p.queue);
      HeldPut(s.p.cells, s.shares, s.owners, id, n, s.shares - {e.g}, s.owners);
      KeptBios(s, id, n);
      if c.shared == 1 && c.cont.Some? {
        ContinuingQueue(s.p.cells, s.contAt, s.p.queue, id, n);
      } else {
        KeptCont(s, id, n);
      }
    }
  }

  lemma QueueValid(p: Prison, queue: seq<Work>)
    requires Valid(p)
    ensures Valid(p.(queue := queue))
  {}

  lemma Unlocked(s: Sys, id: CellId)
    requires Inv(s) && id in s.p.cells && !s.p.cells[id].exclusive
    ensures s.p.cells[id].bios == []
  {}

  lemma NoneWaits(s: Sys, id: CellId)
    requires Inv(s) && id in s.p.cells && s.p.cells[id].shared == 0
    ensures s.p.cells[id].cont.None?
  {}

  lemma LockKeeps(s: Sys, e: Event)
    requires Inv(s) && e.LockEv? && Legal(s, e)
    ensures Inv(Change(s, e))
  {
    hide Valid, Sharers, NoDup, Find, Insert, Parking, Continuing;
    WalkFinds(s.p, e.key);
    match Find(s.p.tree, e.key)
    case Some(id) =>
      var c := s.p.cells[id];
      if !c.exclusive {
        var c' := c.(exclusive := true, level := e.level);
        PutValid(s.p, id, c');
        HeldPut(s.p.cells, s.shares, s.owners, id, c', s.shares, s.owners + {id});
        KeptBios(s, id, c');
        KeptCont(s, id, c');
      }
    case None =>
      var c := Cell(e.key, true, e.level, 0, None, []);
      LinkValid(s.p, e.prealloc, c);
      NoSharers(s.p.cells, s.shares, s.owners, e.prealloc);
      HeldPut(s.p.cells, s.shares, s.owners, e.prealloc, c, s.shares, s.owners + {e.prealloc});
      ParkingSame(s.p.cells, s.bioAt, s.parked, s.returned, e.prealloc, c);
      ContinuingSame(s.p.cells, s.contAt, s.p.queue, e.prealloc, c);
  }

  lemma QuiesceKeeps(s: Sys, e: Event)
    requires Inv(s) && e.QuiesceEv? && Legal(s, e)
    ensures Inv(Change(s, e))
  {
    hide Valid, Sharers, NoDup, Parking, Continuing;
    var c := s.p.cells[e.id];
    if c.shared == 0 {
      QueueValid(s.p, s.p.queue + [e.w]);
      ContinuingNow(s.p.cells, s.contAt, s.p.queue, e.w);
    } else {
      var c' := c.(cont := Some(e.w));
      PutValid(s.p, e.id, c');
      HeldSame(s.p.cells, s.shares, s.owners, e.id, c');
      KeptBios(s, e.id, c');
      ContinuingWait(s.p.cells, s.contAt, s.p.queue, e.id, e.w);
    }
  }

  lemma PromoteKeeps(s: Sys, e: Event)
    requires Inv(s) && e.PromoteEv? && Legal(s, e)
    ensures Inv(Change(s, e))
  {
    hide Valid, Held, NoDup, Parking, Continuing;
    var c := s.p.cells[e.id];
    if c.exclusive {
      var c' := c.(level := e.level);
      PutValid(s.p, e.id, c');
      HeldSame(s.p.cells, s.shares, s.owners, e.id, c');
      KeptBios(s, e.id, c');
      KeptCont(s, e.id, c');
    }
  }

  lemma UnlockKeeps(s: Sys, e: Event)
    requires Inv(s) && e.UnlockEv? && Legal(s, e)
    ensures Inv(Change(s, e))
  {
    hide Valid, Sharers, NoDup, Erase, Parking, Continuing;
    var id := e.id;
    var c := s.p.cells[id];
    if c.shared > 0 {
      var c' := c.(exclusive := false, bios := []);
      PutValid(s.p, id, c');
      HeldPut(s.p.cells, s.shares, s.owners, id, c', s.shares, s.owners - {id});
      ParkingReturn(s.p.cells, s.bioAt, s.parked, s.returned, id, Some(c'));
      KeptCont(s, id, c');
    } else {
      DropValid(s.p, id);
      HeldDrop(s.p.cells, s.shares, s.owners, id, s.shares, s.owners - {id});
      ParkingReturn(s.p.cells, s.bioAt, s.parked, s.returned, id, None);
      NoneWaits(s, id);
      ContinuingDrop(s.p.cells, s.contAt, s.p.queue, id);
    }
  }

  lemma InvIgnores(s: Sys, q: Requests)
    ensures Inv(s) ==> Inv(s.(req := q))
  {}

  lemma InvStep(s: Sys, e: Event)
    requires Inv(s) && Legal(s, e)
    ensures Valid(s.p) && Inv(Step(s, e))
  {
    InvValid(s);
    hide Change, Record, Legal, Inv;
    InvIgnores(Change(s, e), Record(s, e));
    match e
    case GetEv(_, _, _, _, _) => GetKeeps(s, e);
    case PutEv(_) => PutKeeps(s, e);
    case LockEv(_, _, _) => LockKeeps(s, e);
    case QuiesceEv(_, _) => QuiesceKeeps(s, e);
    case PromoteEv(_, _) => PromoteKeeps(s, e);
    case UnlockEv(_) => UnlockKeeps(s, e);
  }

  /* ---------- every run ---------- */

  ghost predicate Reaches(s: Sys, es: seq<Event>, r: Sys)
    decreases |es|, 1
  {
    if es == [] then r == s else Goes(s, es, r)
  }

  /** The first event can happen, and the others go on from it. */
  ghost predicate Goes(s: Sys, es: seq<Event>, r: Sys)
    requires es != []
    decreases |es|, 0
  {
    Valid(s.p) && Legal(s, es[0]) && Reaches(Step(s, es[0]), es[1..], r)
  }

  const INITIAL := Sys(Prison(Leaf, map[], []), map[], {}, map[], [], [], map[], Requests(map[], map[], {}))

  lemma InvInitial()
    ensures Inv(INITIAL)
  {}

  lemma {:induction false} InvRun(s: Sys, es: seq<Event>, r: Sys)
    requires Inv(s) && Reaches(s, es, r)
    ensures Inv(r)
    decreases |es|
  {
    hide Step, Legal, Inv;
    if es != [] {
      assert Goes(s, es, r);
      InvStep(s, es[0]);
      InvRun(Step(s, es[0]), es[1..], r);
    }
  }

  /** In every run a cell is in the tree exactly when somebody holds it, and a cell that no one
      holds exclusively has no bio parked. */
  lemma LiveIffHeld(es: seq<Event>, r: Sys, id: CellId)
    requires Reaches(INITIAL, es, r)
    ensures (exists e :: e in Entries(r.p.tree) && e.id == id) <==> Sharers(r.shares, id) != {} || id in r.owners
    ensures id in r.p.cells && id !in r.owners ==> r.p.cells[id].bios == []
  {
    hide Ordered;
    InvInitial();
    InvRun(INITIAL, es, r);
    if id in r.p.cells {
      assert Entry(r.p.cells[id].key, id) in Entries(r.p.tree);
      if id !in r.owners {
        assert |Sharers(r.shares, id)| > 0;
        Unlocked(r, id);
      }
    } else {
      NoSharers(r.p.cells, r.shares, r.owners, id);
    }
  }

  /* ---------- what becomes of a continuation ---------- */

  /** In every run a continuation that was accepted waits in a live cell with sharers left, or
      is in the queue, once, or is lost. */
  lemma ContinuationPlaces(es: seq<Event>, r: Sys, w: Work)
    requires Reaches(INITIAL, es, r) && w in r.contAt
    ensures NoDup(r.p.queue)
    ensures r.contAt[w] == Queued <==> w in r.p.queue
    ensures r.contAt[w].Waiting? ==>
              var id := r.contAt[w].id;
              id in r.p.cells && Sharers(r.shares, id) != {} && r.p.cells[id].cont == Some(w)
  {
    hide Valid, Parking;
    InvInitial();
    InvRun(INITIAL, es, r);
    if r.contAt[w].Waiting? {
      var id := r.contAt[w].id;
      assert |Sharers(r.shares, id)| > 0;
    }
  }

  /** The last share of cell id goes. */
  ghost predicate LastPut(s: Sys, e: Event, id: CellId) {
    e.PutEv? && e.g in s.shares && s.shares[e.g] == id && Sharers(s.shares, id) == {e.g}
  }

  /** Only two steps end the waiting: the last put of its cell, which queues the continuation
      if the cell is exclusively held then and loses it if not, and another quiesce of the same
      cell, which loses it. */
  lemma WaitingStep(s: Sys, e: Event, w: Work)
    requires Inv(s) && Legal(s, e) && w in s.contAt && s.contAt[w].Waiting?
    ensures Valid(s.p) && w in Step(s, e).contAt
    ensures var id, at := s.contAt[w].id, Step(s, e).contAt[w];
            at == if LastPut(s, e, id) then (if id in s.owners then Queued else Lost)
                  else if e.QuiesceEv? && e.id == id then Lost
                  else Waiting(id)
  {
    hide Valid, Parking, Sharers, NoDup, GetShared, LockExclusive, PutShared, Quiesce;
    var id := s.contAt[w].id;
    if e.PutEv? && s.shares[e.g] == id { OnlyShare(s.shares, e.g); }
  }

  lemma OnlyShare(shares: map<Grant, CellId>, g: Grant)
    requires g in shares
    ensures |Sharers(shares, shares[g])| == 1 <==> Sharers(shares, shares[g]) == {g}
  {
    var all := Sharers(shares, shares[g]);
    assert g in all;
    if |all| == 1 {
      assert |all - {g}| == 0;
      assert all == {g} + (all - {g});
    }
  }

  /** What is queued or lost stays so. */
  lemma DecidedStep(s: Sys, e: Event, w: Work)
    requires Inv(s) && Legal(s, e) && w in s.contAt && !s.contAt[w].Waiting?
    ensures Valid(s.p) && w in Step(s, e).contAt && Step(s, e).contAt[w] == s.contAt[w]
  {
    hide Valid, Parking, Sharers, NoDup, GetShared, LockExclusive, PutShared, Quiesce;
  }

  lemma {:induction false} DecidedRun(s: Sys, es: seq<Event>, r: Sys, w: Work)
    requires Inv(s) && Reaches(s, es, r) && w in s.contAt && !s.contAt[w].Waiting?
    ensures w in r.contAt && r.contAt[w] == s.contAt[w]
    decreases |es|
  {
    hide Step, Legal, Inv;
    if es != [] {
      assert Goes(s, es, r);
      DecidedStep(s, es[0], w);
      InvStep(s, es[0]);
      DecidedRun(Step(s, es[0]), es[1..], r, w);
    }
  }

  lemma {:induction false} FateFrom(s: Sys, es: seq<Event>, r: Sys, w: Work) returns (k: nat, u: Sys)
    requires Inv(s) && Reaches(s, es, r) && w in s.contAt && s.contAt[w].Waiting?
    ensures k <= |es| && Reaches(s, es[..k], u) && w in u.contAt && u.contAt[w] == s.contAt[w]
    ensures w in r.contAt && (k == |es| ==> r == u)
    ensures k < |es| ==>
              var id := s.contAt[w].id;
              && (LastPut(u, es[k], id) || (es[k].QuiesceEv? && es[k].id == id))
              && r.contAt[w] == if LastPut(u, es[k], id) && id in u.owners then Queued else Lost
    decreases |es|
  {
    hide Step, Legal, Inv, LastPut;
    if es == [] {
      k, u := 0, s;
    } else {
      WaitingStep(s, es[0], w);
      InvStep(s, es[0]);
      var m := Step(s, es[0]);
      if m.contAt[w].Waiting? {
        k, u := FateFrom(m, es[1..], r, w);
        assert es[..k + 1][1..] == es[1..][..k];
        k := k + 1;
      } else {
        DecidedRun(m, es[1..], r, w);
        k, u := 0, s;
      }
    }
  }

  /** Over every run, unlocks and new locks at any time included: a waiting continuation still
      waits at the end, or at one step k its cell's last share went or its cell was quiesced
      again. It ends up in the queue exactly when the last share went while the cell was
      exclusively held, by whomever. */
  lemma ContinuationFate(before: seq<Event>, s: Sys, es: seq<Event>, r: Sys, w: Work) returns (k: nat, u: Sys)
    requires Reaches(INITIAL, before, s) && Reaches(s, es, r) && w in s.contAt && s.contAt[w].Waiting?
    ensures k <= |es| && Reaches(s, es[..k], u) && w in u.contAt && u.contAt[w] == s.contAt[w]
    ensures w in r.contAt && (k == |es| ==> r == u)
    ensures k < |es| ==>
              var id := s.contAt[w].id;
              && (LastPut(u, es[k], id) || (es[k].QuiesceEv? && es[k].id == id))
              && r.contAt[w] == if LastPut(u, es[k], id) && id in u.owners then Queued else Lost
    ensures w in r.p.queue <==> k < |es| && LastPut(u, es[k], s.contAt[w].id) && s.contAt[w].id in u.owners
  {
    hide Step, Legal, Inv, LastPut, Reaches;
    InvInitial();
    InvRun(INITIAL, before, s);
    InvRun(s, es, r);
    InQueue(r);
    k, u := FateFrom(s, es, r, w);
  }

  lemma InQueue(s: Sys)
    requires Inv(s)
    ensures forall w :: w in s.p.queue <==> w in s.contAt && s.contAt[w] == Queued
  {}

  /** The discipline that keeps continuations: quiesce under the lock, one at a time, and do not
      unlock while one waits. */
  ghost predicate Tidy(s: Sys, e: Event) {
    match e
    case QuiesceEv(id, _) => id in s.owners && id in s.p.cells && s.p.cells[id].cont.None?
    case UnlockEv(id) => id in s.p.cells && s.p.cells[id].cont.None?
    case _ => true
  }

  ghost predicate TidyRun(s: Sys, es: seq<Event>)
    decreases |es|
  {
    es != [] ==> Valid(s.p) && Legal(s, es[0]) && Tidy(s, es[0]) && TidyRun(Step(s, es[0]), es[1..])
  }

  /** Continuations wait under the lock, and none has been lost. */
  ghost predicate NoneLost(s: Sys) {
    && (forall id :: id in s.p.cells && s.p.cells[id].cont.Some? ==> id in s.owners)
    && (forall w :: w in s.contAt ==> s.contAt[w] != Lost)
  }

  lemma NoneLostStep(s: Sys, e: Event)
    requires Inv(s) && Legal(s, e) && Tidy(s, e) && NoneLost(s)
    ensures Valid(s.p) && NoneLost(Step(s, e))
  {
    hide Valid, Inv, Step;
    InvValid(s);
    UnderLockStep(s, e);
    NewWork(s, e);
    forall w | w in Step(s, e).contAt && w in s.contAt
      ensures Step(s, e).contAt[w] != Lost
    {
      if s.contAt[w].Waiting? {
        WaitingStep(s, e, w);
        WaitsIn(s, w);
      } else {
        DecidedStep(s, e, w);
      }
    }
  }

  lemma NewWork(s: Sys, e: Event)
    requires Inv(s) && Legal(s, e)
    ensures Valid(s.p) && forall w :: w in Step(s, e).contAt && w !in s.contAt ==> Step(s, e).contAt[w] != Lost
  {
    hide Valid, Parking, Held, NoDup, GetShared, LockExclusive, PutShared, Quiesce, Record;
    InvValid(s);
  }

  lemma WaitsIn(s: Sys, w: Work)
    requires Inv(s) && w in s.contAt && s.contAt[w].Waiting?
    ensures s.contAt[w].id in s.p.cells && s.p.cells[s.contAt[w].id].cont == Some(w)
  {}

  lemma UnderLockStep(s: Sys, e: Event)
    requires Inv(s) && Legal(s, e) && Tidy(s, e) && NoneLost(s)
    ensures Valid(s.p) && forall id :: id in Step(s, e).p.cells && Step(s, e).p.cells[id].cont.Some? ==> id in Step(s, e).owners
  {
    hide Valid, Parking, Held, Continuing, Insert, Erase, Find;
    match e
    case GetEv(key, _, _, _, _) => WalkFinds(s.p, key);
    case PutEv(_) =>
    case LockEv(key, _, _) => WalkFinds(s.p, key);
    case QuiesceEv(_, _) =>
    case PromoteEv(_, _) =>
    case UnlockEv(_) =>
  }

  lemma {:induction false} NoneLostRun(s: Sys, es: seq<Event>, r: Sys)
    requires Inv(s) && NoneLost(s) && Reaches(s, es, r) && TidyRun(s, es)
    ensures NoneLost(r)
    decreases |es|
  {
    hide Step, Legal, Inv, NoneLost, Tidy;
    if es != [] {
      assert Goes(s, es, r);
      NoneLostStep(s, es[0]);
      InvStep(s, es[0]);
      NoneLostRun(Step(s, es[0]), es[1..], r);
    }
  }

  /** In every run that keeps the discipline a continuation that was accepted is queued exactly
      once or waits in a cell with sharers left, under the exclusive lock: it is queued as soon
      as the last one goes. */
  lemma ContinuationKept(es: seq<Event>, r: Sys, w: Work)
    requires Reaches(INITIAL, es, r) && TidyRun(INITIAL, es) && w in r.contAt
    ensures NoDup(r.p.queue)
    ensures r.contAt[w] == Queued <==> w in r.p.queue
    ensures r.contAt[w] != Queued ==>
              && r.contAt[w].Waiting?
              && var id := r.contAt[w].id;
                 id in r.p.cells && id in r.owners && Sharers(r.shares, id) != {} && r.p.cells[id].cont == Some(w)
    ensures forall id :: id in r.p.cells && id !in r.owners ==> r.p.cells[id].cont.None?
  {
    hide Valid, Parking, Inv, Sharers;
    InvInitial();
    NoneLostRun(INITIAL, es, r);
    ContinuationPlaces(es, r, w);
  }

  /* ---------- runs that break the discipline ---------- */

  lemma Prepend(s: Sys, e: Event, es: seq<Event>, r: Sys)
    requires Valid(s.p) && Legal(s, e) && Reaches(Step(s, e), es, r)
    ensures Reaches(s, [e] + es, r)
  {
    assert ([e] + es)[1..] == es;
  }

  lemma ReachesNone(s: Sys)
    ensures Reaches(s, [], s)
  {}

  const BLOCK := Key(0, 0, 0, 1)

  /** A prison with one cell, on one block, with a share out. */
  ghost function OneCell(c: Cell, owners: set<CellId>, contAt: map<Work, WorkPlace>): (s: Sys) {
    Sys(Prison(Node(Leaf, Entry(BLOCK, 0), Leaf), map[0 := c], []), map[0 := 0], owners, map[], [], [], contAt,
        Requests(map[0 := Request(BLOCK, 0)], if owners == {} then map[] else map[0 := Request(BLOCK, 5)], {}))
  }

  /** A share is taken, the block locked and quiesced with continuation 7, and unlocked while
      the share is still out. */
  const EARLY_UNLOCK: seq<Event> := [GetEv(BLOCK, 0, 0, 0, 0), LockEv(BLOCK, 5, 1), QuiesceEv(0, 7), UnlockEv(0)]

  ghost const UNLOCKED_EARLY := OneCell(Cell(BLOCK, false, 5, 1, Some(7), []), {}, map[7 := Waiting(0)])

  ghost const LOCKED_EARLY := OneCell(Cell(BLOCK, true, 5, 1, None, []), {0}, map[])

  lemma EarlyLock(es: seq<Event>, r: Sys)
    requires Reaches(LOCKED_EARLY, es, r)
    ensures Inv(LOCKED_EARLY) && Reaches(INITIAL, EARLY_UNLOCK[..2] + es, r)
  {
    hide Reaches, Inv, Valid;
    var s1 := OneCell(Cell(BLOCK, false, 0, 1, None, []), {}, map[]);
    var e0, e1 := EARLY_UNLOCK[0], EARLY_UNLOCK[1];
    InvInitial();
    InvStep(INITIAL, e0);
    assert Step(INITIAL, e0) == s1;
    InvStep(s1, e1);
    assert Step(s1, e1) == LOCKED_EARLY;
    Prepend(s1, e1, es, r);
    Prepend(INITIAL, e0, [e1] + es, r);
    assert EARLY_UNLOCK[..2] + es == [e0] + ([e1] + es);
  }

  lemma EarlyUnlock(es: seq<Event>, r: Sys)
    requires Reaches(UNLOCKED_EARLY, es, r)
    ensures Inv(UNLOCKED_EARLY) && Reaches(INITIAL, EARLY_UNLOCK + es, r)
  {
    hide Reaches, Inv, Valid;
    var s3 := OneCell(Cell(BLOCK, true, 5, 1, Some(7), []), {0}, map[7 := Waiting(0)]);
    var e2, e3 := EARLY_UNLOCK[2], EARLY_UNLOCK[3];
    ReachesNone(LOCKED_EARLY);
    EarlyLock([], LOCKED_EARLY);
    InvStep(LOCKED_EARLY, e2);
    assert Step(LOCKED_EARLY, e2) == s3;
    InvStep(s3, e3);
    assert Step(s3, e3) == UNLOCKED_EARLY;
    Prepend(s3, e3, es, r);
    Prepend(LOCKED_EARLY, e2, [e3] + es, r);
    EarlyLock([e2] + ([e3] + es), r);
    assert EARLY_UNLOCK + es == EARLY_UNLOCK[..2] + ([e2] + ([e3] + es));
  }

  /** If the share goes then, the continuation is lost with the cell. */
  lemma UnlockThenPut() returns (r: Sys)
    ensures Reaches(INITIAL, EARLY_UNLOCK + [PutEv(0)], r)
    ensures r.contAt == map[7 := Lost] && r.p.queue == [] && r.p.cells == map[]
  {
    hide Inv, Valid, Reaches;
    ReachesNone(UNLOCKED_EARLY);
    EarlyUnlock([], UNLOCKED_EARLY);
    InvStep(UNLOCKED_EARLY, PutEv(0));
    r := Step(UNLOCKED_EARLY, PutEv(0));
    ReachesNone(r);
    Prepend(UNLOCKED_EARLY, PutEv(0), [], r);
    assert [PutEv(0)] + [] == [PutEv(0)];
    EarlyUnlock([PutEv(0)], r);
  }

  /** If the block is locked again first, the share going queues it: the continuation of the
      lock that was given up, under the new one. */
  lemma RelockQueuesStale() returns (r: Sys)
    ensures Reaches(INITIAL, EARLY_UNLOCK + [LockEv(BLOCK, 5, 1), PutEv(0)], r)
    ensures r.contAt == map[7 := Queued] && r.p.queue == [7] && r.owners == {0}
  {
    hide Inv, Valid, Reaches;
    ReachesNone(UNLOCKED_EARLY);
    EarlyUnlock([], UNLOCKED_EARLY);
    var relock, put := LockEv(BLOCK, 5, 1), PutEv(0);
    var m := OneCell(Cell(BLOCK, true, 5, 1, Some(7), []), {0}, map[7 := Waiting(0)]);
    InvStep(UNLOCKED_EARLY, relock);
    assert Step(UNLOCKED_EARLY, relock) == m;
    InvStep(m, put);
    r := Step(m, put);
    ReachesNone(r);
    Prepend(m, put, [], r);
    Prepend(UNLOCKED_EARLY, relock, [put] + [], r);
    assert [relock] + ([put] + []) == [relock, put];
    EarlyUnlock([relock, put], r);
  }

  /* ---------- what the walk answers, against the cells' own keys ---------- */

  /** Some live cell of bad overlaps the key. */
  ghost predicate Barred(p: Prison, key: Key, bad: set<CellId>) {
    exists i :: i in p.cells && i in bad && Overlap(key, p.cells[i].key)
  }

  /** Of the live cells that overlap the key, all are in bad or none. */
  ghost predicate AgreeOn(p: Prison, key: Key, bad: set<CellId>) {
    forall i, j :: i in p.cells && j in p.cells && Overlap(key, p.cells[i].key) && Overlap(key, p.cells[j].key) ==>
      (i in bad <==> j in bad)
  }

  /** The walk, which sees one cell, gives the answer that all of them give. */
  ghost predicate Exact(p: Prison, key: Key, bad: set<CellId>) {
    (Find(p.tree, key).Some? && Find(p.tree, key).value in bad) <==> Barred(p, key, bad)
  }

  lemma AgreeingExact(p: Prison, key: Key, bad: set<CellId>)
    requires Valid(p) && Proper(key) && AgreeOn(p, key, bad)
    ensures Exact(p, key, bad)
  {
    hide Valid, Overlap, Find;
    WalkFinds(p, key);
  }

  /** With j at the root of the tree, the walk never meets i. */
  lemma RootHides(p: Prison, key: Key, bad: set<CellId>, i: CellId, j: CellId)
    requires Valid(p) && Proper(key) && i in p.cells && j in p.cells && i in bad && j !in bad
    requires Overlap(key, p.cells[i].key) && Overlap(key, p.cells[j].key)
    ensures exists t :: Valid(p.(tree := t)) && !Exact(p.(tree := t), key, bad)
  {
    hide Overlap, Ordered, Cmp;
    var e := Entry(p.cells[j].key, j);
    var t := Rooted(p.tree, e);
    RootedKeeps(p.tree, e);
    var q := p.(tree := t);
    assert Valid(q);
    CmpIsOverlap(key, e.key);
    assert Find(t, key) == Some(j);
    assert Barred(q, key, bad);
  }

  /** The walk is exact in every search tree of these cells exactly when the overlapping ones
      agree. */
  lemma ExactIff(p: Prison, key: Key, bad: set<CellId>)
    requires Valid(p) && Proper(key)
    ensures AgreeOn(p, key, bad) <==> forall t :: Valid(p.(tree := t)) ==> Exact(p.(tree := t), key, bad)
  {
    hide Overlap, Find, Valid;
    if AgreeOn(p, key, bad) {
      forall t | Valid(p.(tree := t))
        ensures Exact(p.(tree := t), key, bad)
      {
        AgreeingExact(p.(tree := t), key, bad);
      }
    } else {
      var i, j :| i in p.cells && j in p.cells && Overlap(key, p.cells[i].key) && Overlap(key, p.cells[j].key) && i in bad && j !in bad;
      RootHides(p, key, bad, i, j);
    }
  }

  /** The topmost of the overlapping cells is one of bad. */
  ghost predicate TopIn(p: Prison, key: Key, bad: set<CellId>) {
    exists e :: e in Entries(p.tree) && e.id in bad && Topmost(p.tree, key, e)
  }

  /** In the tree at hand, it is exact exactly when the topmost overlapping cell is one of those
      that bar, if any does. */
  lemma ExactHere(p: Prison, key: Key, bad: set<CellId>)
    requires Valid(p) && Proper(key)
    ensures Exact(p, key, bad) <==> (Barred(p, key, bad) ==> TopIn(p, key, bad))
  {
    hide Overlap, Find, Topmost, Ordered;
    WalkFinds(p, key);
    if Find(p.tree, key).Some? {
      var e := MetTopmost(p.tree, key);
      assert e in Entries(p.tree);
    }
    if TopIn(p, key, bad) {
      var e :| e in Entries(p.tree) && e.id in bad && Topmost(p.tree, key, e);
      TopmostMet(p.tree, key, e);
    }
  }

  /** The cells that keep the level out, and those that are exclusively held. */
  ghost function Excluding(p: Prison, level: nat): (s: set<CellId>) { set i | i in p.cells && Excludes(p.cells[i], level) }

  ghost function Exclusives(p: Prison): (s: set<CellId>) { set i | i in p.cells && p.cells[i].exclusive }

  /** The share is granted exactly when no live cell that keeps the level out overlaps the key. */
  ghost predicate ExactGrant(p: Prison, key: Key, level: nat)
    requires Walkable(p, key)
  {
    GetShared(p, key, level, 0, 0).1 <==> !Barred(p, key, Excluding(p, level))
  }

  /** -EBUSY is returned exactly when a live cell that is exclusively held overlaps the key. */
  ghost predicate ExactBusy(p: Prison, key: Key)
    requires Walkable(p, key)
  {
    LockExclusive(p, key, 0, 0).1 == -EBUSY <==> Barred(p, key, Exclusives(p))
  }

  lemma AnswersExact(p: Prison, key: Key, level: nat)
    requires Valid(p) && Proper(key)
    ensures Walkable(p, key) && (ExactGrant(p, key, level) <==> Exact(p, key, Excluding(p, level)))
    ensures ExactBusy(p, key) <==> Exact(p, key, Exclusives(p))
  {
    hide Valid, Overlap, Find;
    WalkFinds(p, key);
  }

  /** When the overlapping cells agree, as when there is at most one, the grant answers for all
      of them. */
  lemma GrantExact(p: Prison, key: Key, level: nat)
    requires Valid(p) && Proper(key) && AgreeOn(p, key, Excluding(p, level))
    ensures Walkable(p, key) && ExactGrant(p, key, level)
  {
    hide Valid, Overlap, Find, ExactGrant, AgreeOn, Exact;
    AnswersExact(p, key, level);
    AgreeingExact(p, key, Excluding(p, level));
  }

  /** When they disagree, the shape of the tree decides: with the same cells, some search tree
      lets the key slip past an exclusive lock. So grants are exact for every shape exactly when
      the overlapping cells agree. */
  lemma GrantExactIff(p: Prison, key: Key, level: nat)
    requires Valid(p) && Proper(key)
    ensures AgreeOn(p, key, Excluding(p, level)) <==>
            forall t :: Valid(p.(tree := t)) ==> Walkable(p.(tree := t), key) && ExactGrant(p.(tree := t), key, level)
  {
    hide Valid, Overlap, Find, ExactGrant, AgreeOn, Exact;
    ExactIff(p, key, Excluding(p, level));
    forall t | Valid(p.(tree := t))
      ensures Walkable(p.(tree := t), key)
      ensures ExactGrant(p.(tree := t), key, level) <==> Exact(p.(tree := t), key, Excluding(p, level))
    {
      AnswersExact(p.(tree := t), key, level);
    }
  }

  /** In the tree at hand a grant is exact exactly when nothing keeps the level out, or the
      topmost of the overlapping cells does. */
  lemma GrantExactHere(p: Prison, key: Key, level: nat)
    requires Valid(p) && Proper(key)
    ensures Walkable(p, key)
    ensures ExactGrant(p, key, level) <==> (Barred(p, key, Excluding(p, level)) ==> TopIn(p, key, Excluding(p, level)))
  {
    hide Valid, Overlap, Find, ExactGrant, Exact, Barred, TopIn;
    AnswersExact(p, key, level);
    ExactHere(p, key, Excluding(p, level));
  }

  /** The same for a lock: -EBUSY is exact for every shape exactly when the overlapping cells
      are all exclusively held or none is. */
  lemma BusyExactIff(p: Prison, key: Key)
    requires Valid(p) && Proper(key)
    ensures AgreeOn(p, key, Exclusives(p)) <==>
            forall t :: Valid(p.(tree := t)) ==> Walkable(p.(tree := t), key) && ExactBusy(p.(tree := t), key)
  {
    hide Valid, Overlap, Find, ExactBusy, AgreeOn, Exact, Barred;
    ExactIff(p, key, Exclusives(p));
    forall t | Valid(p.(tree := t))
      ensures Walkable(p.(tree := t), key)
      ensures ExactBusy(p.(tree := t), key) <==> Exact(p.(tree := t), key, Exclusives(p))
    {
      AnswersExact(p.(tree := t), key, 0);
    }
  }

  /** In the tree at hand it is exact exactly when none is held, or the topmost is. */
  lemma BusyExactHere(p: Prison, key: Key)
    requires Valid(p) && Proper(key)
    ensures Walkable(p, key)
    ensures ExactBusy(p, key) <==> (Barred(p, key, Exclusives(p)) ==> TopIn(p, key, Exclusives(p)))
  {
    hide Valid, Overlap, Find, ExactBusy, Exact, Barred, TopIn;
    AnswersExact(p, key, 0);
    ExactHere(p, key, Exclusives(p));
  }

  const PAIR := Key(0, 0, 0, 2)

  /** Block 1 is shared and block 0 exclusively held at level 5. */
  ghost const SPLIT := Prison(
    Node(Node(Leaf, Entry(BLOCK, 1), Leaf), Entry(Key(0, 0, 1, 2), 0), Leaf),
    map[0 := Cell(Key(0, 0, 1, 2), false, 0, 1, None, []), 1 := Cell(BLOCK, true, 5, 0, None, [])], [])

  /** Two calls lead there, and the source has nothing to rotate. */
  lemma SplitReached() returns (r: Sys)
    ensures Reaches(INITIAL, [GetEv(Key(0, 0, 1, 2), 0, 0, 0, 0), LockEv(BLOCK, 5, 1)], r)
    ensures r.p == SPLIT && r.owners == {1}
  {
    hide Inv, Valid;
    var e0, e1 := GetEv(Key(0, 0, 1, 2), 0, 0, 0, 0), LockEv(BLOCK, 5, 1);
    InvInitial();
    InvStep(INITIAL, e0);
    var m := Sys(Prison(Node(Leaf, Entry(Key(0, 0, 1, 2), 0), Leaf), map[0 := Cell(Key(0, 0, 1, 2), false, 0, 1, None, [])], []),
                 map[0 := 0], {}, map[], [], [], map[], Requests(map[0 := Request(Key(0, 0, 1, 2), 0)], map[], {}));
    assert Step(INITIAL, e0) == m;
    InvStep(m, e1);
    r := Step(m, e1);
    Prepend(m, e1, [], r);
    Prepend(INITIAL, e0, [e1] + [], r);
    assert [e0] + ([e1] + []) == [e0, e1];
  }

  /** A request for both blocks then slips past the lock: the share is granted, and a second
      exclusive lock as well. */
  lemma SlipsPast()
    ensures Walkable(SPLIT, PAIR) && GetShared(SPLIT, PAIR, 0, 1, 2).1 && Barred(SPLIT, PAIR, Excluding(SPLIT, 0))
    ensures LockExclusive(SPLIT, PAIR, 0, 2).1 == 1 && Barred(SPLIT, PAIR, Exclusives(SPLIT))
  {
    CmpIsOverlap(PAIR, BLOCK);
    assert Overlap(PAIR, SPLIT.cells[1].key);
    hide Overlap;
    assert Find(SPLIT.tree, PAIR) == Some(0);
  }

  /* ---------- draining a cell ---------- */

  function PutMany(p: Prison, id: CellId, n: nat): (r: Prison)
    requires id in p.cells && p.cells[id].shared == n
    decreases n
  {
    if n == 0 then p
    else
      var q := PutShared(p, id).0;
      if id in q.cells then PutMany(q, id, n - 1) else q
  }

  /** After an early unlock, puts alone never queue the continuation: whatever the number of
      sharers, once they have all gone the cell is freed and nothing was queued. */
  lemma {:induction false} DrainAfterUnlock(p: Prison, id: CellId)
    requires id in p.cells && p.cells[id].exclusive && p.cells[id].cont.Some? && p.cells[id].shared > 0
    ensures var q := Unlock(p, id).0;
            && id in q.cells && q.cells[id].cont == p.cells[id].cont
            && PutMany(q, id, q.cells[id].shared).queue == p.queue
            && id !in PutMany(q, id, q.cells[id].shared).cells
  {
    DrainSilent(Unlock(p, id).0, id);
  }

  lemma {:induction false} DrainSilent(p: Prison, id: CellId)
    requires id in p.cells && !p.cells[id].exclusive && p.cells[id].shared > 0
    ensures PutMany(p, id, p.cells[id].shared).queue == p.queue
    ensures id !in PutMany(p, id, p.cells[id].shared).cells
    decreases p.cells[id].shared
  {
    var q := PutShared(p, id).0;
    if p.cells[id].shared > 1 { DrainSilent(q, id); }
  }

  /** Kept under the lock instead, it is queued when the last sharer goes, and only then. */
  lemma {:induction false} DrainQueues(p: Prison, id: CellId)
    requires id in p.cells && p.cells[id].exclusive && p.cells[id].cont.Some? && p.cells[id].shared > 0
    ensures PutMany(p, id, p.cells[id].shared).queue == p.queue + [p.cells[id].cont.value]
    ensures p.cells[id].shared > 1 ==> PutShared(p, id).0.queue == p.queue
    decreases p.cells[id].shared
  {
    var q := PutShared(p, id).0;
    if p.cells[id].shared > 1 { DrainQueues(q, id); }
  }

  /* ---------- the routines ---------- */

  /** struct dm_bio_prison_v2, with its cells and its workqueue. */
  class DmBioPrisonV2 {
    var tree: Tree
    var cells: map<CellId, Cell>
    var queue: seq<Work>

    ghost function State(): Prison
      reads this
    {
      Prison(tree, cells, queue)
    }

    constructor ()
      ensures State() == INITIAL.p
    {
      tree, cells, queue := Leaf, map[], [];
    }

    /** The walk of __find_or_insert. */
    method Walk(key: Key) returns (found: Option<CellId>)
      ensures found == Find(tree, key)
    {
      var t := tree;
      while t.Node?
        invariant Find(t, key) == Find(tree, key)
        decreases t
      {
        var c := Cmp(key, t.entry.key);
        if c < 0 {
          t := t.left;
        } else if c > 0 {
          t := t.right;
        } else {
          return Some(t.entry.id);
        }
      }
      return None;
    }

    /** dm_cell_get_v2. */
    method CellGet(key: Key, level: nat, inmate: Bio, prealloc: CellId) returns (granted: bool, id: CellId)
      requires Walkable(State(), key)
      modifies this
      ensures (State(), granted, id) == GetShared(old(State()), key, level, inmate, prealloc)
    {
      hide Find, Insert;
      var found := Walk(key);
      if found.Some? {
        id := found.value;
        if cells[id].exclusive {
          if level <= cells[id].level {
            cells := cells[id := cells[id].(bios := cells[id].bios + [inmate])];
            return false, id;
          }
        }
        cells := cells[id := cells[id].(shared := cells[id].shared + 1)];
        return true, id;
      }
      tree := Insert(tree, Entry(key, prealloc));
      cells := cells[prealloc := Cell(key, false, 0, 1, None, [])];
      return true, prealloc;
    }

    /** dm_cell_put_v2. */
    method CellPut(id: CellId) returns (freed: bool)
      requires id in cells && cells[id].shared > 0
      modifies this
      ensures (State(), freed) == PutShared(old(State()), id)
    {
      hide Erase;
      var c := cells[id].(shared := cells[id].shared - 1);
      if c.shared == 0 {
        if c.exclusive {
          if c.cont.Some? {
            queue := queue + [c.cont.value];
            c := c.(cont := None);
          }
        } else {
          tree := Erase(tree, c.key);
          cells := cells - {id};
          return true;
        }
      }
      cells := cells[id := c];
      return false;
    }

    /** dm_cell_lock_v2. */
    method CellLock(key: Key, level: nat, prealloc: CellId) returns (r: int, id: Option<CellId>)
      requires Walkable(State(), key)
      modifies this
      ensures (State(), r, id) == LockExclusive(old(State()), key, level, prealloc)
    {
      hide Find, Insert;
      var found := Walk(key);
      if found.Some? {
        var c := cells[found.value];
        if c.exclusive {
          return -EBUSY, None;
        }
        cells := cells[found.value := c.(exclusive := true, level := level)];
        return if c.shared > 0 then 1 else 0, found;
      }
      tree := Insert(tree, Entry(key, prealloc));
      cells := cells[prealloc := Cell(key, true, level, 0, None, [])];
      return 0, Some(prealloc);
    }

    /** dm_cell_quiesce_v2. */
    method CellQuiesce(id: CellId, w: Work)
      requires id in cells
      modifies this
      ensures State() == Quiesce(old(State()), id, w)
    {
      if cells[id].shared == 0 {
        queue := queue + [w];
      } else {
        cells := cells[id := cells[id].(cont := Some(w))];
      }
    }

    /** dm_cell_lock_promote_v2. */
    method CellLockPromote(id: CellId, level: nat) returns (r: int)
      requires id in cells
      modifies this
      ensures (State(), r) == PromoteLock(old(State()), id, level)
    {
      if !cells[id].exclusive {
        return -EINVAL;
      }
      cells := cells[id := cells[id].(level := level)];
      return if cells[id].shared > 0 then 1 else 0;
    }

    /** dm_cell_unlock_v2. */
    method CellUnlock(id: CellId) returns (bios: seq<Bio>, freed: bool)
      requires id in cells && cells[id].exclusive
      modifies this
      ensures (State(), bios, freed) == Unlock(old(State()), id)
    {
      hide Erase;
      var c := cells[id];
      bios := c.bios;
      if c.shared > 0 {
        cells := cells[id := c.(exclusive := false, bios := [])];
        return bios, false;
      }
      tree := Erase(tree, c.key);
      cells := cells - {id};
      return bios, true;
    }
  }
}
