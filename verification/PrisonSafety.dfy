/** What the locks of md/dm-bio-prison-v2.c are worth to those who asked for them.

    A request that overlaps a live cell joins it, and the cell keeps its own key: the blocks
    asked for need not be the blocks covered. Here every holder is measured by its request. */
module PrisonSafety {
  import opened Collections
  import opened CellTree
  import opened PrisonV2

  /* ---------- blocks ---------- */

  function Single(key: Key, b: nat): (k: Key) { Key(key.virt, key.dev, b, b + 1) }

  /** A live cell that keeps the level out covers the block. */
  ghost predicate Shut(p: Prison, key: Key, level: nat, b: nat) {
    exists i :: i in p.cells && Excludes(p.cells[i], level) && Within(p.cells[i].key, key, b)
  }

  /** Every block of the key is shut to the level. */
  ghost predicate ShutOut(p: Prison, key: Key, level: nat) { forall b: nat :: Covers(key, b) ==> Shut(p, key, level, b) }

  lemma SingleOverlap(key: Key, b: nat, k: Key)
    ensures Overlap(Single(key, b), k) <==> Within(k, key, b)
  {
    if Within(k, key, b) { assert Covers(Single(key, b), b); }
  }

  lemma CellsApart(p: Prison, i: CellId, j: CellId)
    requires Valid(p) && i in p.cells && j in p.cells && i != j
    ensures !Overlap(p.cells[i].key, p.cells[j].key)
  {
    hide Overlap, Ordered;
    EntriesDisjoint(p.tree, Entry(p.cells[i].key, i), Entry(p.cells[j].key, j));
  }

  /** One block is covered by one cell at most. */
  lemma OneCover(p: Prison, key: Key, b: nat, i: CellId, j: CellId)
    requires Valid(p) && i in p.cells && j in p.cells && Within(p.cells[i].key, key, b) && Within(p.cells[j].key, key, b)
    ensures i == j
  {
    hide Valid;
    if i != j { CellsApart(p, i, j); }
  }

  /** A request for one block is refused exactly when the block is shut. */
  lemma SingleGrant(p: Prison, key: Key, level: nat, b: nat)
    requires Valid(p)
    ensures Walkable(p, Single(key, b)) && (GetShared(p, Single(key, b), level, 0, 0).1 <==> !Shut(p, key, level, b))
  {
    hide Valid, Overlap, Find;
    var k := Single(key, b);
    WalkFinds(p, k);
    forall i | i in p.cells
      ensures Overlap(k, p.cells[i].key) <==> Within(p.cells[i].key, key, b)
    {
      SingleOverlap(key, b, p.cells[i].key);
    }
    if Find(p.tree, k).Some? {
      var f := Find(p.tree, k).value;
      forall i | i in p.cells && Within(p.cells[i].key, key, b)
        ensures i == f
      {
        OneCover(p, key, b, i, f);
      }
    }
  }

  /** A key is shut out exactly when no request for a block of it, at the level or below, gets a
      share. */
  lemma ShutOutMeans(p: Prison, key: Key, level: nat)
    requires Valid(p)
    ensures ShutOut(p, key, level) <==>
            forall b: nat, l: nat :: Covers(key, b) && l <= level ==>
              Walkable(p, Single(key, b)) && !GetShared(p, Single(key, b), l, 0, 0).1
  {
    hide Valid, GetShared, Walkable;
    forall b: nat, l: nat
      ensures Walkable(p, Single(key, b)) && (GetShared(p, Single(key, b), l, 0, 0).1 <==> !Shut(p, key, l, b))
      ensures l <= level && Shut(p, key, level, b) ==> Shut(p, key, l, b)
    {
      SingleGrant(p, key, l, b);
    }
    if !ShutOut(p, key, level) {
      var b: nat :| Covers(key, b) && !Shut(p, key, level, b);
      assert GetShared(p, Single(key, b), level, 0, 0).1;
    }
  }

  /* ---------- what a lock shuts out ---------- */

  /** The block is in the cell that the walk meets. */
  ghost predicate InMet(p: Prison, key: Key, b: nat)
    requires Walkable(p, key)
  {
    Find(p.tree, key).Some? && Within(p.cells[Find(p.tree, key).value].key, key, b)
  }

  /** A lock that is granted shuts its level out of every block asked for exactly when no live
      cell overlapped the key, or each block of it lies in the topmost overlapping cell or is
      shut already. */
  lemma LockShutsIff(p: Prison, key: Key, level: nat, prealloc: CellId)
    requires Valid(p) && Proper(key) && prealloc !in p.cells
    ensures Walkable(p, key)
    ensures LockExclusive(p, key, level, prealloc).1 != -EBUSY ==>
              (ShutOut(LockExclusive(p, key, level, prealloc).0, key, level) <==>
               Find(p.tree, key).None? || forall b: nat :: Covers(key, b) ==> InMet(p, key, b) || Shut(p, key, level, b))
  {
    hide Valid, Overlap, Find, Insert;
    WalkFinds(p, key);
    var (q, r, id) := LockExclusive(p, key, level, prealloc);
    if r != -EBUSY {
      forall b: nat | Covers(key, b)
        ensures Shut(q, key, level, b) <==> Find(p.tree, key).None? || InMet(p, key, b) || Shut(p, key, level, b)
      {
        ShutAfter(p, q, key, level, b, id.value);
      }
    }
  }

  /** Locking cell id shuts its own blocks and leaves the others as they were. */
  lemma ShutAfter(p: Prison, q: Prison, key: Key, level: nat, b: nat, id: CellId)
    requires id in q.cells && q.cells == p.cells[id := q.cells[id]] && q.cells[id].exclusive && q.cells[id].level == level
    requires id in p.cells ==> q.cells[id].key == p.cells[id].key && !p.cells[id].exclusive
    ensures Shut(q, key, level, b) <==> Within(q.cells[id].key, key, b) || Shut(p, key, level, b)
  {
    if Shut(p, key, level, b) {
      var i :| i in p.cells && Excludes(p.cells[i], level) && Within(p.cells[i].key, key, b);
      assert q.cells[i] == p.cells[i];
    }
    if Shut(q, key, level, b) {
      var i :| i in q.cells && Excludes(q.cells[i], level) && Within(q.cells[i].key, key, b);
      if i != id { assert p.cells[i] == q.cells[i]; }
    }
  }

  /* ---------- the requests in every run ---------- */

  /** Shares and owners have their requests, and each request overlaps the cell it joined. */
  ghost predicate Requested(s: Sys) {
    && s.req.asked.Keys == s.shares.Keys && s.req.locks.Keys == s.owners && s.req.told <= s.owners
    && (forall g :: g in s.shares ==> s.shares[g] in s.p.cells && Overlap(s.req.asked[g].key, s.p.cells[s.shares[g]].key))
    && (forall id :: id in s.owners ==>
          id in s.p.cells && Overlap(s.req.locks[id].key, s.p.cells[id].key) && s.req.locks[id].level == s.p.cells[id].level)
  }

  /** The step changes cell id only, and keeps its key if it was live. */
  ghost predicate OnlyCell(s: Sys, t: Sys, id: CellId) {
    && (forall i :: i != id ==> (i in t.p.cells <==> i in s.p.cells) && (i in s.p.cells ==> t.p.cells[i] == s.p.cells[i]))
    && (id in s.p.cells && id in t.p.cells ==> t.p.cells[id].key == s.p.cells[id].key)
  }

  /** If the step changes one cell, and the requests with their holders, the rest stays matched:
      what is to be shown is the new request. */
  lemma RequestedKept(s: Sys, t: Sys, id: CellId)
    requires Requested(s) && OnlyCell(s, t, id)
    requires t.req.asked.Keys == t.shares.Keys && t.req.locks.Keys == t.owners && t.req.told <= t.owners
    requires forall g :: g in t.shares ==> t.shares[g] in t.p.cells
    requires forall g :: g in t.shares && !(g in s.shares && t.shares[g] == s.shares[g] && t.req.asked[g] == s.req.asked[g]) ==>
               Overlap(t.req.asked[g].key, t.p.cells[t.shares[g]].key)
    requires forall i :: i in t.owners && i != id ==> i in s.owners && t.req.locks[i] == s.req.locks[i]
    requires id in t.owners ==>
               id in t.p.cells && Overlap(t.req.locks[id].key, t.p.cells[id].key) && t.req.locks[id].level == t.p.cells[id].level
    requires id in s.p.cells || forall g :: g in s.shares ==> s.shares[g] != id
    ensures Requested(t)
  {
    hide Overlap;
  }

  lemma RequestedParts(s: Sys)
    requires Requested(s)
    ensures s.req.asked.Keys == s.shares.Keys && s.req.locks.Keys == s.owners && s.req.told <= s.owners
    ensures forall id :: id in s.owners ==>
              id in s.p.cells && Overlap(s.req.locks[id].key, s.p.cells[id].key) && s.req.locks[id].level == s.p.cells[id].level
  {
    hide Overlap;
  }

  lemma AskedIn(s: Sys, g: Grant)
    requires Requested(s) && g in s.req.asked
    ensures g in s.shares && s.shares[g] in s.p.cells && Overlap(s.req.asked[g].key, s.p.cells[s.shares[g]].key)
  {
    hide Overlap;
  }

  lemma GetStep(s: Sys, e: Event)
    requires Valid(s.p) && Legal(s, e) && e.GetEv?
    ensures Walkable(s.p, e.key)
    ensures var (p, granted, id) := GetShared(s.p, e.key, e.level, e.inmate, e.prealloc);
            var t := Step(s, e);
            && t.owners == s.owners && OnlyCell(s, t, id) && id in t.p.cells && Overlap(e.key, t.p.cells[id].key)
            && (id !in s.p.cells ==> id == e.prealloc && t.p.cells[id].key == e.key)
            && (id in s.p.cells ==> t.p.cells[id].level == s.p.cells[id].level && t.p.cells[id].key == s.p.cells[id].key)
            && (id in s.p.cells && granted ==> !Excludes(s.p.cells[id], e.level))
            && t.shares == (if granted then s.shares[e.g := id] else s.shares)
            && t.req == if granted then s.req.(asked := s.req.asked[e.g := Request(e.key, e.level)]) else s.req
  {
    hide Valid, Find, Insert, Overlap;
    WalkFinds(s.p, e.key);
    OverlapSelf(e.key);
  }

  lemma RequestedGet(s: Sys, e: Event)
    requires Inv(s) && Requested(s) && Legal(s, e) && e.GetEv?
    ensures Valid(s.p) && Requested(Step(s, e))
  {
    hide Inv, Valid, Overlap, Step, GetShared, Requested, OnlyCell;
    InvValid(s);
    InvStep(s, e);
    HeldCells(s);
    HeldCells(Step(s, e));
    GetStep(s, e);
    RequestedParts(s);
    RequestedKept(s, Step(s, e), GetShared(s.p, e.key, e.level, e.inmate, e.prealloc).2);
  }

  lemma PutStep(s: Sys, e: Event)
    requires Valid(s.p) && Legal(s, e) && e.PutEv?
    ensures var t, id := Step(s, e), s.shares[e.g];
            && t.owners == s.owners && OnlyCell(s, t, id) && t.shares == s.shares - {e.g}
            && (id in t.p.cells ==>
                  && t.p.cells[id].level == s.p.cells[id].level && t.p.cells[id].key == s.p.cells[id].key
                  && t.p.cells[id].shared == s.p.cells[id].shared - 1)
            && t.req.asked == s.req.asked - {e.g} && t.req.locks == s.req.locks
            && (id !in t.p.cells ==> !s.p.cells[id].exclusive)
            && t.req.told == if s.p.cells[id].shared == 1 && s.p.cells[id].exclusive && s.p.cells[id].cont.Some? then s.req.told + {id} else s.req.told
  {
    hide Valid, Erase;
  }

  lemma RequestedPut(s: Sys, e: Event)
    requires Inv(s) && Requested(s) && Legal(s, e) && e.PutEv?
    ensures Valid(s.p) && Requested(Step(s, e))
  {
    hide Inv, Valid, Overlap, Step, Requested, OnlyCell;
    InvValid(s);
    InvStep(s, e);
    HeldCells(s);
    HeldCells(Step(s, e));
    PutStep(s, e);
    RequestedParts(s);
    RequestedKept(s, Step(s, e), s.shares[e.g]);
  }

  lemma LockStep(s: Sys, e: Event)
    requires Valid(s.p) && Legal(s, e) && e.LockEv?
    ensures Walkable(s.p, e.key)
    ensures var (_, r, f) := LockExclusive(s.p, e.key, e.level, e.prealloc);
            var t := Step(s, e);
            && t.shares == s.shares && t.req.asked == s.req.asked && (f.None? <==> r == -EBUSY)
            && (f.None? ==> t == s)
            && (f.Some? ==>
                  var id := f.value;
                  && OnlyCell(s, t, id) && id in t.p.cells && Overlap(e.key, t.p.cells[id].key) && t.p.cells[id].level == e.level
                  && (id !in s.p.cells ==> id == e.prealloc && t.p.cells[id].key == e.key) && (id in s.p.cells ==> !s.p.cells[id].exclusive)
                  && (r == 0 <==> id !in s.p.cells || s.p.cells[id].shared == 0)
                  && t.p.cells[id].exclusive && t.p.cells[id].shared == (if id in s.p.cells then s.p.cells[id].shared else 0)
                  && t.owners == s.owners + {id} && t.req.locks == s.req.locks[id := Request(e.key, e.level)]
                  && t.req.told == if r == 0 then s.req.told + {id} else s.req.told - {id})
  {
    hide Valid, Find, Insert, Overlap;
    WalkFinds(s.p, e.key);
    OverlapSelf(e.key);
  }

  lemma RequestedLock(s: Sys, e: Event)
    requires Inv(s) && Requested(s) && Legal(s, e) && e.LockEv?
    ensures Valid(s.p) && Requested(Step(s, e))
  {
    hide Inv, Valid, Overlap, Step, LockExclusive, Requested, OnlyCell;
    InvValid(s);
    InvStep(s, e);
    HeldCells(s);
    HeldCells(Step(s, e));
    LockStep(s, e);
    RequestedParts(s);
    var id := LockExclusive(s.p, e.key, e.level, e.prealloc).2;
    if id.Some? { RequestedKept(s, Step(s, e), id.value); }
  }

  lemma OtherStep(s: Sys, e: Event)
    requires Valid(s.p) && Legal(s, e) && (e.QuiesceEv? || e.PromoteEv? || e.UnlockEv?)
    ensures var t, id := Step(s, e), e.id;
            && t.shares == s.shares && OnlyCell(s, t, id) && t.req.asked == s.req.asked
            && (id in t.p.cells ==> t.p.cells[id].shared == s.p.cells[id].shared && t.p.cells[id].key == s.p.cells[id].key)
            && (e.UnlockEv? ==> t.owners == s.owners - {id} && t.req.locks == s.req.locks - {id} && t.req.told == s.req.told - {id})
            && (!e.UnlockEv? ==> t.owners == s.owners && id in t.p.cells)
            && (e.QuiesceEv? ==>
                  && t.req.locks == s.req.locks && t.p.cells[id].level == s.p.cells[id].level
                  && t.req.told == if s.p.cells[id].shared == 0 && s.p.cells[id].exclusive then s.req.told + {id} else s.req.told)
            && (e.PromoteEv? && !s.p.cells[id].exclusive ==> t.req == s.req && t.p == s.p)
            && (e.PromoteEv? && s.p.cells[id].exclusive ==>
                  && t.p.cells[id].level == e.level
                  && (id in s.req.locks ==>
                        && t.req.locks == s.req.locks[id := s.req.locks[id].(level := e.level)]
                        && t.req.told == if s.p.cells[id].shared > 0 then s.req.told - {id} else s.req.told + {id}))
  {
    hide Valid, Erase;
  }

  lemma RequestedOther(s: Sys, e: Event)
    requires Inv(s) && Requested(s) && Legal(s, e) && (e.QuiesceEv? || e.PromoteEv? || e.UnlockEv?)
    ensures Valid(s.p) && Requested(Step(s, e))
  {
    hide Inv, Valid, Overlap, Step, Requested, OnlyCell;
    InvValid(s);
    InvStep(s, e);
    HeldCells(s);
    HeldCells(Step(s, e));
    OtherStep(s, e);
    RequestedParts(s);
    RequestedKept(s, Step(s, e), e.id);
  }

  lemma HeldCells(s: Sys)
    requires Inv(s)
    ensures forall g :: g in s.shares ==> s.shares[g] in s.p.cells
    ensures s.owners <= s.p.cells.Keys && forall id :: id in s.p.cells ==> (s.p.cells[id].exclusive <==> id in s.owners)
  {
    hide Valid, Parking, Continuing, Sharers;
  }

  lemma RequestedStep(s: Sys, e: Event)
    requires Inv(s) && Requested(s) && Legal(s, e)
    ensures Valid(s.p) && Requested(Step(s, e))
  {
    hide Inv, Step, Legal, Requested;
    InvValid(s);
    match e
    case GetEv(_, _, _, _, _) => RequestedGet(s, e);
    case PutEv(_) => RequestedPut(s, e);
    case LockEv(_, _, _) => RequestedLock(s, e);
    case _ => RequestedOther(s, e);
  }

  /** What the invariant says of holders. */
  lemma HeldParts(s: Sys)
    requires Inv(s)
    ensures forall g :: g in s.shares ==> s.shares[g] in s.p.cells
    ensures s.owners <= s.p.cells.Keys && forall id :: id in s.p.cells ==> (s.p.cells[id].exclusive <==> id in s.owners)
    ensures forall id :: id in s.p.cells ==> (s.p.cells[id].shared > 0 <==> exists g :: g in s.shares && s.shares[g] == id)
    ensures forall id :: id in s.p.cells ==> s.p.cells[id].shared > 0 || s.p.cells[id].exclusive
  {
    hide Valid, Parking, Continuing;
    forall id | id in s.p.cells
      ensures s.p.cells[id].shared > 0 <==> exists g :: g in s.shares && s.shares[g] == id
    {
      assert forall g :: g in Sharers(s.shares, id) <==> g in s.shares && s.shares[g] == id;
      if s.p.cells[id].shared > 0 { var g :| g in Sharers(s.shares, id); }
    }
  }

  lemma {:induction false} RequestedRun(s: Sys, es: seq<Event>, r: Sys)
    requires Inv(s) && Requested(s) && Reaches(s, es, r)
    ensures Requested(r)
    decreases |es|
  {
    hide Step, Legal, Inv, Requested;
    if es != [] {
      assert Goes(s, es, r);
      RequestedStep(s, es[0]);
      InvStep(s, es[0]);
      RequestedRun(Step(s, es[0]), es[1..], r);
    }
  }

  lemma RequestedInitial()
    ensures Requested(INITIAL)
  {}

  /** In every run. */
  lemma RequestsKnown(es: seq<Event>, r: Sys)
    requires Reaches(INITIAL, es, r)
    ensures Inv(r) && Requested(r)
  {
    hide Reaches, Inv;
    InvInitial();
    RequestedInitial();
    InvRun(INITIAL, es, r);
    RequestedRun(INITIAL, es, r);
  }

  /* ---------- what callers are told ---------- */

  /** In every run a promotion is refused exactly to those who have no lock, and otherwise answered
      1 exactly when the cell has sharers, and 0 if not. */
  lemma PromotionAnswer(es: seq<Event>, r: Sys, id: CellId, level: nat)
    requires Reaches(INITIAL, es, r) && id in r.p.cells
    ensures var a := PromoteLock(r.p, id, level).1;
            && (a == -22 <==> id !in r.owners)
            && (id in r.owners ==> a == if Sharers(r.shares, id) == {} then 0 else 1)
  {
    hide Reaches, Inv;
    RequestsKnown(es, r);
    Counted(r, id);
  }

  lemma Counted(s: Sys, id: CellId)
    requires Inv(s)
    ensures id in s.p.cells ==> (s.p.cells[id].shared == 0 <==> Sharers(s.shares, id) == {}) && (s.p.cells[id].exclusive <==> id in s.owners)
    ensures id in s.p.cells <==> Sharers(s.shares, id) != {} || id in s.owners
  {
    hide Valid, Parking, Continuing;
    if Sharers(s.shares, id) != {} { var g :| g in Sharers(s.shares, id); }
  }

  /** In every run a cell is handed back to be freed, by a put or an unlock, exactly when it is live
      no more, which is when its last holder has let go. */
  lemma FreedIffGone(es: seq<Event>, r: Sys, e: Event, id: CellId)
    requires Reaches(INITIAL, es, r) && Legal(r, e) && ((e.PutEv? && id == r.shares[e.g]) || (e.UnlockEv? && id == e.id))
    ensures Valid(r.p) && id in r.p.cells
    ensures var freed := if e.PutEv? then PutShared(r.p, id).1 else Unlock(r.p, id).2;
            && (freed <==> id !in Step(r, e).p.cells)
            && (freed <==> Sharers(Step(r, e).shares, id) == {} && id !in Step(r, e).owners)
  {
    hide Reaches, Inv, Step;
    RequestsKnown(es, r);
    HeldParts(r);
    InvValid(r);
    InvStep(r, e);
    Counted(Step(r, e), id);
    FreedIs(r, e, id);
  }

  lemma FreedIs(s: Sys, e: Event, id: CellId)
    requires Valid(s.p) && Legal(s, e) && ((e.PutEv? && id == s.shares[e.g]) || (e.UnlockEv? && id == e.id))
    ensures (if e.PutEv? then PutShared(s.p, id).1 else Unlock(s.p, id).2) <==> id !in Step(s, e).p.cells
  {
    hide Valid, Erase, Record;
  }

  /** Work is queued behind what is queued already, and nothing is taken back. */
  lemma QueueGrows(s: Sys, e: Event)
    requires Valid(s.p) && Legal(s, e)
    ensures s.p.queue <= Step(s, e).p.queue
  {
    hide Valid, Find, Insert, Erase, Record;
    if e.GetEv? || e.LockEv? { WalkFinds(s.p, e.key); }
  }

  /** The parked bios of every cell are in the order in which they were parked. */
  ghost predicate Lined(s: Sys) { forall id :: id in s.p.cells ==> InOrder(s.p.cells[id].bios, s.parked) }

  lemma LinedStep(s: Sys, e: Event)
    requires Inv(s) && Lined(s) && Legal(s, e)
    ensures Valid(s.p) && Lined(Step(s, e))
  {
    hide Inv, Valid, Find, Insert, Erase, InOrder, Record, Overlap;
    InvValid(s);
    var t := Step(s, e);
    if e.GetEv? {
      WalkFinds(s.p, e.key);
      var (_, granted, id) := GetShared(s.p, e.key, e.level, e.inmate, e.prealloc);
      forall i | i in t.p.cells
        ensures InOrder(t.p.cells[i].bios, t.parked)
      {
        if i in s.p.cells && !granted {
          ParkedApart(s, i, e.inmate);
          Collections.Queues(s.p.cells[i].bios, s.parked, e.inmate);
        } else if i !in s.p.cells {
          NoneInOrder(t.parked);
        }
      }
    } else {
      if e.LockEv? { WalkFinds(s.p, e.key); }
      NoneInOrder(s.parked);
    }
  }

  lemma NoneInOrder(came: seq<Bio>)
    ensures InOrder([], came)
  {}

  lemma ParkedApart(s: Sys, id: CellId, b: Bio)
    requires Inv(s) && id in s.p.cells && b !in s.bioAt
    ensures b !in s.p.cells[id].bios
  {
    hide Valid, Held, Continuing, Balanced, NoDup;
  }

  lemma {:induction false} LinedRun(s: Sys, es: seq<Event>, r: Sys)
    requires Inv(s) && Lined(s) && Reaches(s, es, r)
    ensures Lined(r)
    decreases |es|
  {
    hide Step, Legal, Inv, Lined;
    if es != [] {
      assert Goes(s, es, r);
      LinedStep(s, es[0]);
      InvStep(s, es[0]);
      LinedRun(Step(s, es[0]), es[1..], r);
    }
  }

  /** In every run an unlock hands out exactly the bios parked in its cell, in the order in which
      they were parked, and leaves none behind. */
  lemma UnlockedInOrder(es: seq<Event>, r: Sys, id: CellId)
    requires Reaches(INITIAL, es, r) && Legal(r, UnlockEv(id))
    ensures var out := Unlock(r.p, id).1;
            InOrder(out, r.parked) && NoDup(out) && forall b :: b in out <==> b in r.bioAt && r.bioAt[b] == id
    ensures Valid(r.p) && forall b :: b in r.bioAt && r.bioAt[b] == id ==> b !in Step(r, UnlockEv(id)).bioAt
  {
    hide Reaches, InOrder, Erase, Held, Continuing, Balanced, NoDup;
    InvInitial();
    InvRun(INITIAL, es, r);
    assert Lined(INITIAL);
    LinedRun(INITIAL, es, r);
  }

  /* ---------- whether the sharers are gone ---------- */

  /** A share is out on a request that overlaps the key. */
  ghost predicate Sharing(s: Sys, key: Key) {
    exists g :: g in s.shares && g in s.req.asked && Overlap(s.req.asked[g].key, key)
  }

  /** Every such share joined cell id. */
  ghost predicate AllIn(s: Sys, key: Key, id: Option<CellId>) {
    forall g :: g in s.shares && g in s.req.asked && Overlap(s.req.asked[g].key, key) ==> id == Some(s.shares[g])
  }

  /** In every run: a lock is answered 0, no quiescing needed, and no share is out on its key,
      exactly when every share that is out on the key joined the cell that the walk meets. */
  lemma ZeroIff(es: seq<Event>, r: Sys, key: Key, level: nat, prealloc: CellId)
    requires Reaches(INITIAL, es, r) && Proper(key) && prealloc !in r.p.cells
    ensures Walkable(r.p, key)
    ensures LockExclusive(r.p, key, level, prealloc).1 == 0 ==> (!Sharing(r, key) <==> AllIn(r, key, Find(r.p.tree, key)))
  {
    hide Reaches, Inv, Valid, Overlap, Find, Insert;
    RequestsKnown(es, r);
    InvValid(r);
    HeldParts(r);
    WalkFinds(r.p, key);
  }

  /** The event has the continuation of cell id queued. */
  ghost predicate Queues(s: Sys, e: Event, id: CellId) {
    && id in s.p.cells && s.p.cells[id].exclusive
    && ((LastPut(s, e, id) && s.p.cells[id].cont.Some?) || (e.QuiesceEv? && e.id == id && s.p.cells[id].shared == 0))
  }

  /** In every run: when the continuation of a lock is queued, no share is out on what the lock
      was asked for exactly when before the step every such share was one of its own cell. */
  lemma QueuedIff(es: seq<Event>, s: Sys, e: Event, id: CellId)
    requires Reaches(INITIAL, es, s) && Legal(s, e) && Queues(s, e, id)
    ensures Valid(s.p) && id in s.req.locks && id in Step(s, e).req.told
    ensures !Sharing(Step(s, e), s.req.locks[id].key) <==> AllIn(s, s.req.locks[id].key, Some(id))
  {
    hide Reaches, Inv, Valid, Overlap, Step, Requested;
    RequestsKnown(es, s);
    InvValid(s);
    HeldParts(s);
    RequestedParts(s);
    if e.PutEv? {
      PutStep(s, e);
      LastIs(s, e, id);
    } else {
      OtherStep(s, e);
    }
    var t, key := Step(s, e), s.req.locks[id].key;
    forall g | g in s.shares
      ensures g in t.shares <==> s.shares[g] != id
      ensures s.shares[g] != id ==> g in s.req.asked && g in t.req.asked && t.req.asked[g] == s.req.asked[g]
    {}
  }

  lemma LastIs(s: Sys, e: Event, id: CellId)
    requires Inv(s) && LastPut(s, e, id) && id in s.p.cells
    ensures s.p.cells[id].shared == 1 && forall g :: g in s.shares && s.shares[g] == id ==> g == e.g
  {
    hide Valid, Parking, Continuing;
    assert forall g :: g in Sharers(s.shares, id) <==> g in s.shares && s.shares[g] == id;
  }

  /* ---------- what an owner knows once it has been told ---------- */

  /** The shares of a lock whose owner has been told are all above its level. */
  ghost predicate ToldRight(s: Sys) {
    forall id, g :: id in s.req.told && id in s.p.cells && g in s.shares && s.shares[g] == id && g in s.req.asked ==>
      s.req.asked[g].level > s.p.cells[id].level
  }

  lemma ToldGet(s: Sys, e: Event)
    requires Inv(s) && Requested(s) && ToldRight(s) && Legal(s, e) && e.GetEv?
    ensures Valid(s.p) && ToldRight(Step(s, e))
  {
    hide Inv, Valid, Overlap, Step, Requested, GetShared;
    InvValid(s);
    HeldCells(s);
    RequestedParts(s);
    GetStep(s, e);
  }

  lemma ToldPut(s: Sys, e: Event)
    requires Inv(s) && Requested(s) && ToldRight(s) && Legal(s, e) && e.PutEv?
    ensures Valid(s.p) && ToldRight(Step(s, e))
  {
    hide Inv, Valid, Overlap, Step, Requested;
    InvValid(s);
    PutStep(s, e);
    if s.p.cells[s.shares[e.g]].shared == 1 { OnlySharer(s, e.g); }
  }

  lemma ToldLock(s: Sys, e: Event)
    requires Inv(s) && Requested(s) && ToldRight(s) && Legal(s, e) && e.LockEv?
    ensures Valid(s.p) && ToldRight(Step(s, e))
  {
    hide Inv, Valid, Overlap, Step, Requested, LockExclusive;
    InvValid(s);
    LockStep(s, e);
    var id := LockExclusive(s.p, e.key, e.level, e.prealloc).2;
    if id.Some? && (id.value !in s.p.cells || s.p.cells[id.value].shared == 0) { Unshared(s, id.value); }
  }

  lemma ToldOther(s: Sys, e: Event)
    requires Inv(s) && Requested(s) && ToldRight(s) && Legal(s, e) && (e.QuiesceEv? || e.PromoteEv? || e.UnlockEv?)
    ensures Valid(s.p) && ToldRight(Step(s, e))
  {
    hide Inv, Valid, Overlap, Step, Requested;
    InvValid(s);
    HeldCells(s);
    RequestedParts(s);
    OtherStep(s, e);
    if s.p.cells[e.id].shared == 0 { Unshared(s, e.id); }
  }

  lemma ToldStep(s: Sys, e: Event)
    requires Inv(s) && Requested(s) && ToldRight(s) && Legal(s, e)
    ensures Valid(s.p) && ToldRight(Step(s, e))
  {
    hide Inv, Step, Legal, Requested, ToldRight;
    InvValid(s);
    match e
    case GetEv(_, _, _, _, _) => ToldGet(s, e);
    case PutEv(_) => ToldPut(s, e);
    case LockEv(_, _, _) => ToldLock(s, e);
    case _ => ToldOther(s, e);
  }

  /** A cell without sharers, or not yet there, has no share. */
  lemma Unshared(s: Sys, id: CellId)
    requires Inv(s) && (id in s.p.cells ==> s.p.cells[id].shared == 0)
    ensures forall g :: g in s.shares ==> s.shares[g] != id
  {
    hide Valid, Parking, Continuing;
    assert forall g :: g in s.shares && s.shares[g] == id ==> g in Sharers(s.shares, id);
  }

  lemma OnlySharer(s: Sys, g: Grant)
    requires Inv(s) && g in s.shares && s.shares[g] in s.p.cells && s.p.cells[s.shares[g]].shared == 1
    ensures forall h :: h in s.shares && s.shares[h] == s.shares[g] ==> h == g
  {
    hide Valid, Parking, Continuing;
    OnlyShare(s.shares, g);
    assert forall h :: h in s.shares && s.shares[h] == s.shares[g] ==> h in Sharers(s.shares, s.shares[g]);
  }

  lemma {:induction false} ToldRun(s: Sys, es: seq<Event>, r: Sys)
    requires Inv(s) && Requested(s) && ToldRight(s) && Reaches(s, es, r)
    ensures ToldRight(r)
    decreases |es|
  {
    hide Step, Legal, Inv, Requested, ToldRight;
    if es != [] {
      assert Goes(s, es, r);
      ToldStep(s, es[0]);
      RequestedStep(s, es[0]);
      InvStep(s, es[0]);
      ToldRun(Step(s, es[0]), es[1..], r);
    }
  }

  /** In every run, and as far as its own cell goes: once the owner of a lock has been told that
      the sharers are gone, only shares above its level are out. */
  lemma ToldMeans(es: seq<Event>, r: Sys, id: CellId, g: Grant)
    requires Reaches(INITIAL, es, r) && id in r.req.told && g in r.shares && r.shares[g] == id
    ensures id in r.req.locks && g in r.req.asked && r.req.asked[g].level > r.req.locks[id].level
  {
    hide Reaches, Inv, Overlap;
    RequestsKnown(es, r);
    RequestedParts(r);
    InvInitial();
    RequestedInitial();
    assert ToldRight(INITIAL);
    ToldRun(INITIAL, es, r);
  }

  /** A held lock shuts its level out of every block asked for exactly when each block that is
      not in its own cell is shut by another. */
  lemma HeldShutsIff(es: seq<Event>, r: Sys, id: CellId)
    requires Reaches(INITIAL, es, r) && id in r.owners
    ensures id in r.req.locks && id in r.p.cells
    ensures var q := r.req.locks[id];
            ShutOut(r.p, q.key, q.level) <==>
            forall b: nat :: Covers(q.key, b) && !Within(r.p.cells[id].key, q.key, b) ==>
              exists j :: j in r.p.cells && j != id && Excludes(r.p.cells[j], q.level) && Within(r.p.cells[j].key, q.key, b)
  {
    hide Reaches, Inv, Overlap, Requested;
    RequestsKnown(es, r);
    RequestedParts(r);
    HeldCells(r);
    var q := r.req.locks[id];
    assert Excludes(r.p.cells[id], q.level);
    forall b: nat | Covers(q.key, b)
      ensures Shut(r.p, q.key, q.level, b) <==>
              Within(r.p.cells[id].key, q.key, b) ||
              exists j :: j in r.p.cells && j != id && Excludes(r.p.cells[j], q.level) && Within(r.p.cells[j].key, q.key, b)
    {}
  }

  /* ---------- requests whose overlap is transitive ---------- */

  ghost function KeysOf(es: seq<Event>): (s: set<Key>) { set e | e in es && (e.GetEv? || e.LockEv?) :: e.key }

  /** All cells and requests are on these keys. */
  ghost predicate Fitted(s: Sys, keys: set<Key>) {
    && (forall id :: id in s.p.cells ==> s.p.cells[id].key in keys)
    && (forall g :: g in s.req.asked ==> s.req.asked[g].key in keys)
    && (forall id :: id in s.req.locks ==> s.req.locks[id].key in keys)
  }

  lemma FittedStep(s: Sys, e: Event, keys: set<Key>)
    requires Inv(s) && Requested(s) && Fitted(s, keys) && Legal(s, e)
    requires e.GetEv? || e.LockEv? ==> e.key in keys
    ensures Valid(s.p) && Fitted(Step(s, e), keys)
  {
    hide Inv, Valid, Overlap, Step, Requested, GetShared, LockExclusive, Fitted;
    InvValid(s);
    HeldCells(s);
    RequestedParts(s);
    match e
    case GetEv(_, _, _, _, _) => FittedGet(s, e, keys);
    case PutEv(_) => FittedPut(s, e, keys);
    case LockEv(_, _, _) => FittedLock(s, e, keys);
    case _ => FittedOther(s, e, keys);
  }

  lemma FittedGet(s: Sys, e: Event, keys: set<Key>)
    requires Inv(s) && Requested(s) && Fitted(s, keys) && Legal(s, e) && e.GetEv? && e.key in keys
    ensures Valid(s.p) && Fitted(Step(s, e), keys)
  {
    hide Inv, Valid, Overlap, Step, Requested, GetShared;
    InvValid(s);
    HeldCells(s);
    RequestedParts(s);
    GetStep(s, e);
  }

  lemma FittedPut(s: Sys, e: Event, keys: set<Key>)
    requires Inv(s) && Fitted(s, keys) && Legal(s, e) && e.PutEv?
    ensures Valid(s.p) && Fitted(Step(s, e), keys)
  {
    hide Inv, Valid, Overlap, Step;
    InvValid(s);
    PutStep(s, e);
  }

  lemma FittedLock(s: Sys, e: Event, keys: set<Key>)
    requires Inv(s) && Requested(s) && Fitted(s, keys) && Legal(s, e) && e.LockEv? && e.key in keys
    ensures Valid(s.p) && Fitted(Step(s, e), keys)
  {
    hide Inv, Valid, Overlap, Step, LockExclusive, Requested;
    InvValid(s);
    HeldCells(s);
    RequestedParts(s);
    LockStep(s, e);
    if LockExclusive(s.p, e.key, e.level, e.prealloc).2.None? { assert Step(s, e) == s; }
  }

  lemma FittedOther(s: Sys, e: Event, keys: set<Key>)
    requires Inv(s) && Requested(s) && Fitted(s, keys) && Legal(s, e) && (e.QuiesceEv? || e.PromoteEv? || e.UnlockEv?)
    ensures Valid(s.p) && Fitted(Step(s, e), keys)
  {
    hide Inv, Valid, Overlap, Step, Requested;
    InvValid(s);
    HeldCells(s);
    RequestedParts(s);
    OtherStep(s, e);
  }

  lemma {:induction false} FittedRun(s: Sys, es: seq<Event>, r: Sys, keys: set<Key>)
    requires Inv(s) && Requested(s) && Fitted(s, keys) && Reaches(s, es, r)
    requires forall e :: e in es && (e.GetEv? || e.LockEv?) ==> e.key in keys
    ensures Fitted(r, keys)
    decreases |es|
  {
    hide Step, Legal, Inv, Requested, Fitted;
    if es != [] {
      assert Goes(s, es, r);
      assert es[0] in es;
      FittedStep(s, es[0], keys);
      RequestedStep(s, es[0]);
      InvStep(s, es[0]);
      FittedRun(Step(s, es[0]), es[1..], r, keys);
    }
  }

  lemma FittedAll(es: seq<Event>, r: Sys, keys: set<Key>)
    requires Reaches(INITIAL, es, r) && KeysOf(es) <= keys
    ensures Inv(r) && Requested(r) && Fitted(r, keys)
  {
    hide Reaches, Inv, Overlap;
    RequestsKnown(es, r);
    InvInitial();
    RequestedInitial();
    forall e | e in es && (e.GetEv? || e.LockEv?)
      ensures e.key in keys
    {
      assert e.key in KeysOf(es);
    }
    FittedRun(INITIAL, es, r, keys);
  }

  /** Requests that overlap are then in the same cell. */
  lemma SameCell(s: Sys, keys: set<Key>, k: Key, i: CellId, l: Key, j: CellId)
    requires Inv(s) && Fitted(s, keys) && Classed(keys) && k in keys && l in keys && i in s.p.cells && j in s.p.cells
    requires Overlap(k, s.p.cells[i].key) && Overlap(k, l) && Overlap(l, s.p.cells[j].key)
    ensures i == j
  {
    hide Inv, Overlap, Classed;
    InvValid(s);
    Chain(keys, s.p.cells[i].key, k, l, s.p.cells[j].key);
    if i != j { CellsApart(s.p, i, j); }
  }

  /** Every run on whose requests overlap is transitive is safe. No two locks were asked for on
      overlapping keys, and once the owner of a lock has been told that the sharers are gone,
      whoever has a share on any of these blocks asked for it above the level. If the requests
      are equal or disjoint, each lock also shuts its level out of every block asked for. */
  lemma SafeRun(es: seq<Event>, r: Sys, id: CellId)
    requires Reaches(INITIAL, es, r) && Classed(KeysOf(es)) && id in r.req.locks
    ensures forall j :: j in r.req.locks && j != id ==> !Overlap(r.req.locks[id].key, r.req.locks[j].key)
    ensures id in r.req.told ==> forall g :: g in r.req.asked && Overlap(r.req.asked[g].key, r.req.locks[id].key) ==>
                                   r.req.asked[g].level > r.req.locks[id].level
    ensures Partition(KeysOf(es)) ==> ShutOut(r.p, r.req.locks[id].key, r.req.locks[id].level)
  {
    hide Reaches, Inv, Overlap, Requested, KeysOf, Classed, ShutOut;
    var keys := KeysOf(es);
    FittedAll(es, r, keys);
    RequestedParts(r);
    HeldCells(r);
    var k := r.req.locks[id].key;
    forall j | j in r.req.locks && Overlap(k, r.req.locks[j].key)
      ensures j == id
    {
      SameCell(r, keys, k, id, r.req.locks[j].key, j);
    }
    forall g | g in r.req.asked && Overlap(r.req.asked[g].key, k) && id in r.req.told
      ensures r.req.asked[g].level > r.req.locks[id].level
    {
      AskedIn(r, g);
      SameCell(r, keys, r.req.asked[g].key, r.shares[g], k, id);
      ToldMeans(es, r, id, g);
    }
    if Partition(keys) { ShutOwn(r, id); }
  }

  lemma ShutOwn(s: Sys, id: CellId)
    requires Inv(s) && Requested(s) && id in s.req.locks && (id in s.p.cells ==> s.req.locks[id].key == s.p.cells[id].key)
    ensures ShutOut(s.p, s.req.locks[id].key, s.req.locks[id].level)
  {
    hide Inv, Overlap;
    RequestedParts(s);
    HeldCells(s);
    var k := s.req.locks[id].key;
    assert forall b: nat :: Covers(k, b) ==> Within(s.p.cells[id].key, k, b);
    assert Excludes(s.p.cells[id], s.req.locks[id].level);
  }

  /** A share is granted exactly when no lock that was asked for on an overlapping key keeps its
      level out. A lock gets -EBUSY exactly when such a lock is held, and otherwise 1 exactly when
      a share on an overlapping key is out. */
  ghost predicate RightAnswers(s: Sys, key: Key, level: nat, prealloc: CellId) {
    && Walkable(s.p, key)
    && (GetShared(s.p, key, level, 0, prealloc).1 <==>
        !exists id :: id in s.req.locks && Overlap(key, s.req.locks[id].key) && level <= s.req.locks[id].level)
    && var a := LockExclusive(s.p, key, level, prealloc).1;
       && (a == -16 <==> exists id :: id in s.req.locks && Overlap(key, s.req.locks[id].key))
       && (a != -16 ==> (a == 1 <==> Sharing(s, key)) && (a == 0 <==> !Sharing(s, key)))
  }

  /** A promotion is refused exactly to those who have no lock, and otherwise answered 0 exactly
      when no share on a request that overlaps the lock's is out, and 1 if one is. */
  ghost predicate RightPromotion(s: Sys, id: CellId, level: nat) {
    id in s.p.cells &&
    var a := PromoteLock(s.p, id, level).1;
    && (a == -22 <==> id !in s.req.locks)
    && (id in s.req.locks ==> (a == 0 <==> !Sharing(s, s.req.locks[id].key)) && (a == 1 <==> Sharing(s, s.req.locks[id].key)))
  }

  lemma SafePromotion(es: seq<Event>, r: Sys, id: CellId, level: nat)
    requires Reaches(INITIAL, es, r) && Classed(KeysOf(es)) && id in r.p.cells
    ensures RightPromotion(r, id, level)
  {
    hide Reaches, Inv, Overlap, Requested, KeysOf, Classed, Fitted;
    var keys := KeysOf(es);
    FittedAll(es, r, keys);
    RequestedParts(r);
    HeldParts(r);
    PromotionAnswer(es, r, id, level);
    if id in r.req.locks {
      var k := r.req.locks[id].key;
      forall g | g in r.req.asked && g in r.shares
        ensures Overlap(r.req.asked[g].key, k) <==> r.shares[g] == id
      {
        SharedWith(r, keys, g, id);
      }
    }
  }

  /** A share overlaps a lock's request exactly when it is in its cell. */
  lemma SharedWith(s: Sys, keys: set<Key>, g: Grant, id: CellId)
    requires Inv(s) && Requested(s) && Fitted(s, keys) && Classed(keys) && g in s.req.asked && id in s.req.locks
    ensures g in s.shares && (Overlap(s.req.asked[g].key, s.req.locks[id].key) <==> s.shares[g] == id)
  {
    hide Inv, Overlap, Requested;
    RequestedParts(s);
    AskedIn(s, g);
    var a, k := s.req.asked[g].key, s.req.locks[id].key;
    if s.shares[g] == id {
      OverlapBack(k, s.p.cells[id].key);
      assert Overlap(a, k);
    } else if Overlap(a, k) {
      SameCell(s, keys, a, s.shares[g], k, id);
    }
  }

  /** And every answer is right about the requests. */
  lemma SafeAnswers(es: seq<Event>, r: Sys, key: Key, level: nat, prealloc: CellId)
    requires Reaches(INITIAL, es, r) && Classed(KeysOf(es) + {key}) && Proper(key) && prealloc !in r.p.cells
    ensures RightAnswers(r, key, level, prealloc)
  {
    hide Reaches, Inv, Valid, Overlap, Requested, KeysOf, Find, Insert, Classed;
    var keys := KeysOf(es) + {key};
    FittedAll(es, r, keys);
    RequestedParts(r);
    HeldParts(r);
    InvValid(r);
    WalkFinds(r.p, key);
    OnlyCellMet(r, keys, key);
  }

  /** Cells and requests that overlap the key are all in the one cell that it meets. */
  lemma OnlyCellMet(s: Sys, keys: set<Key>, key: Key)
    requires Inv(s) && Requested(s) && Fitted(s, keys) && Classed(keys) && key in keys && Proper(key)
    ensures Valid(s.p) && Walkable(s.p, key)
    ensures forall i :: i in s.p.cells && Overlap(key, s.p.cells[i].key) ==> Find(s.p.tree, key) == Some(i)
    ensures forall g :: g in s.req.asked && g in s.shares ==> (Overlap(s.req.asked[g].key, key) <==> Find(s.p.tree, key) == Some(s.shares[g]))
    ensures forall i :: i in s.req.locks ==> (Overlap(key, s.req.locks[i].key) <==> Find(s.p.tree, key) == Some(i))
  {
    hide Inv, Valid, Overlap, Find, Classed;
    RequestedParts(s);
    HeldParts(s);
    InvValid(s);
    WalkFinds(s.p, key);
    OverlapSelf(key);
    forall i | i in s.p.cells && Overlap(key, s.p.cells[i].key)
      ensures Find(s.p.tree, key) == Some(i)
    {
      SameCell(s, keys, key, i, key, Find(s.p.tree, key).value);
    }
    forall g | g in s.req.asked && g in s.shares
      ensures Overlap(s.req.asked[g].key, key) <==> Find(s.p.tree, key) == Some(s.shares[g])
    {
      MeetsSame(s, keys, key, s.req.asked[g].key, s.shares[g]);
    }
    forall i | i in s.req.locks
      ensures Overlap(key, s.req.locks[i].key) <==> Find(s.p.tree, key) == Some(i)
    {
      MeetsSame(s, keys, key, s.req.locks[i].key, i);
    }
  }

  /** A request k in cell i overlaps the key exactly when the cell does. */
  lemma MeetsSame(s: Sys, keys: set<Key>, key: Key, k: Key, i: CellId)
    requires Inv(s) && Valid(s.p) && Fitted(s, keys) && Classed(keys) && key in keys && k in keys && Proper(key)
    requires i in s.p.cells && Overlap(k, s.p.cells[i].key)
    ensures Walkable(s.p, key)
    ensures Overlap(key, k) <==> Find(s.p.tree, key) == Some(i)
    ensures Overlap(k, key) <==> Find(s.p.tree, key) == Some(i)
  {
    hide Inv, Valid, Find;
    WalkFinds(s.p, key);
    OverlapSelf(key);
    var c := s.p.cells[i].key;
    if Overlap(key, k) {
      assert Overlap(key, c);
      SameCell(s, keys, key, i, key, Find(s.p.tree, key).value);
    }
    if Find(s.p.tree, key) == Some(i) {
      OverlapBack(k, c);
      OverlapBack(key, c);
      assert Overlap(k, key);
    }
  }

  /** In such a run the continuation is queued only when nobody shares what the lock was asked
      for. */
  lemma SafeQueue(es: seq<Event>, s: Sys, e: Event, id: CellId)
    requires Reaches(INITIAL, es, s) && Classed(KeysOf(es)) && Legal(s, e) && Queues(s, e, id)
    ensures Valid(s.p) && id in s.req.locks && !Sharing(Step(s, e), s.req.locks[id].key)
  {
    hide Reaches, Inv, Valid, Overlap, Requested, KeysOf, Step, Classed;
    var keys := KeysOf(es);
    FittedAll(es, s, keys);
    RequestedParts(s);
    HeldCells(s);
    QueuedIff(es, s, e, id);
    forall g | g in s.shares && g in s.req.asked && Overlap(s.req.asked[g].key, s.req.locks[id].key)
      ensures s.shares[g] == id
    {
      AskedIn(s, g);
      SameCell(s, keys, s.req.asked[g].key, s.shares[g], s.req.locks[id].key, id);
    }
  }

  /* ---------- requests whose overlap is not ---------- */

  const NEXT := Key(0, 0, 1, 2)

  ghost function Plain(tree: Tree, cells: map<CellId, Cell>, queue: seq<Work>, shares: map<Grant, CellId>, owners: set<CellId>,
                       contAt: map<Work, WorkPlace>, req: Requests): (s: Sys)
  {
    Sys(Prison(tree, cells, queue), shares, owners, map[], [], [], contAt, req)
  }

  /** One key is shared. */
  ghost function Shared(k: Key): (s: Sys) {
    Plain(Node(Leaf, Entry(k, 0), Leaf), map[0 := Cell(k, false, 0, 1, None, [])], [],
          map[0 := 0], {}, map[], Requests(map[0 := Request(k, 0)], map[], {}))
  }

  lemma ShareThen(k: Key, e: Event)
    requires Proper(k) && Legal(Shared(k), e)
    ensures Inv(Shared(k)) && Valid(Shared(k).p) && Reaches(INITIAL, [GetEv(k, 0, 0, 0, 0), e], Step(Shared(k), e))
  {
    hide Inv, Valid, Reaches, Legal;
    var e0, s := GetEv(k, 0, 0, 0, 0), Shared(k);
    ShareFirst(k);
    InvStep(s, e);
    ReachesNone(Step(s, e));
    Prepend(s, e, [], Step(s, e));
    Prepend(INITIAL, e0, [e] + [], Step(s, e));
    assert [e0] + ([e] + []) == [e0, e];
  }

  lemma ShareFirst(k: Key)
    requires Proper(k)
    ensures Legal(INITIAL, GetEv(k, 0, 0, 0, 0)) && Valid(INITIAL.p) && Step(INITIAL, GetEv(k, 0, 0, 0, 0)) == Shared(k)
    ensures Inv(Shared(k)) && Valid(Shared(k).p)
  {
    hide Inv, Valid;
    InvInitial();
    InvStep(INITIAL, GetEv(k, 0, 0, 0, 0));
    InvValid(Shared(k));
  }

  lemma PairOverlaps()
    ensures Overlap(PAIR, BLOCK) && Overlap(BLOCK, PAIR) && Overlap(PAIR, NEXT) && Overlap(NEXT, PAIR) && !Overlap(BLOCK, NEXT)
  {
    assert Covers(PAIR, 0) && Covers(BLOCK, 0) && Covers(PAIR, 1) && Covers(NEXT, 1);
  }

  /** Key l spans k and m, which are apart. */
  ghost predicate Spans(k: Key, l: Key, m: Key) {
    Proper(k) && Proper(l) && Proper(m) && Overlap(k, l) && Overlap(l, m) && !Overlap(k, m)
  }

  /** With one cell, of key k, a request for m finds nothing in its way. */
  lemma FreeWay(p: Prison, k: Key, m: Key)
    requires Valid(p) && p.cells.Keys == {0} && p.cells[0].key == k && Proper(m) && !Overlap(k, m)
    ensures Walkable(p, m) && GetShared(p, m, 0, 0, 1).1 && LockExclusive(p, m, 5, 1).1 == 0
  {
    hide Valid, Find, Insert;
    WalkFinds(p, m);
    assert !Overlap(m, p.cells[0].key);
  }

  /** While k is shared, a lock asked for on l joins its cell: a share of m is granted below its
      level, and a second lock on m as well, although l overlaps m. */
  lemma WideLockMissesBlock(k: Key, l: Key, m: Key) returns (r: Sys)
    requires Spans(k, l, m)
    ensures Reaches(INITIAL, [GetEv(k, 0, 0, 0, 0), LockEv(l, 5, 1)], r)
    ensures 0 in r.req.locks && r.req.locks[0] == Request(l, 5) && !ShutOut(r.p, l, 5)
    ensures Walkable(r.p, m) && GetShared(r.p, m, 0, 0, 1).1 && LockExclusive(r.p, m, 5, 1).1 == 0
    ensures 1 !in r.p.cells
  {
    hide Inv, Valid, Reaches, Find, Insert;
    var e := LockEv(l, 5, 1);
    ShareThen(k, e);
    OverlapBack(k, l);
    WalkFinds(Shared(k).p, l);
    assert Overlap(l, Shared(k).p.cells[0].key);
    r := Step(Shared(k), e);
    InvStep(Shared(k), e);
    InvValid(r);
    FreeWay(r.p, k, m);
    var b: nat :| Covers(l, b) && Covers(m, b);
    assert !Covers(k, b) && !Shut(r.p, l, 5, b);
  }

  /** A share asked for on l joins it too: a lock on m is then told that no quiescing is needed,
      although the share overlaps it. */
  lemma WideShareUnseen(k: Key, l: Key, m: Key) returns (r: Sys)
    requires Spans(k, l, m)
    ensures Reaches(INITIAL, [GetEv(k, 0, 0, 0, 0), GetEv(l, 0, 1, 1, 1)], r)
    ensures 1 in r.req.asked && r.req.asked[1] == Request(l, 0) && Sharing(r, m)
    ensures Walkable(r.p, m) && LockExclusive(r.p, m, 5, 1).1 == 0
  {
    hide Inv, Valid, Reaches, Find, Insert;
    var e := GetEv(l, 0, 1, 1, 1);
    ShareThen(k, e);
    OverlapBack(k, l);
    WalkFinds(Shared(k).p, l);
    assert Overlap(l, Shared(k).p.cells[0].key);
    r := Step(Shared(k), e);
    InvStep(Shared(k), e);
    InvValid(r);
    FreeWay(r.p, k, m);
  }

  /** Whatever is asked for, as long as it is on these keys, is answered rightly. */
  ghost predicate AllRight(s: Sys, keys: set<Key>) {
    && (forall key, level: nat, prealloc :: key in keys && prealloc !in s.p.cells ==> RightAnswers(s, key, level, prealloc))
    && (forall id, level: nat :: id in s.p.cells ==> RightPromotion(s, id, level))
  }

  ghost predicate RightAlways(keys: set<Key>) {
    forall es, r :: Reaches(INITIAL, es, r) && KeysOf(es) <= keys ==> AllRight(r, keys)
  }

  lemma RightHere(keys: set<Key>, es: seq<Event>, r: Sys)
    requires Classed(keys) && (forall k :: k in keys ==> Proper(k)) && Reaches(INITIAL, es, r) && KeysOf(es) <= keys
    ensures AllRight(r, keys)
  {
    hide Reaches, KeysOf, Classed, RightAnswers, RightPromotion;
    forall id, level: nat | id in r.p.cells
      ensures RightPromotion(r, id, level)
    {
      ClassedLess(keys, KeysOf(es));
      SafePromotion(es, r, id, level);
    }
    forall key, level: nat, prealloc | key in keys && prealloc !in r.p.cells
      ensures RightAnswers(r, key, level, prealloc)
    {
      ClassedLess(keys, KeysOf(es) + {key});
      SafeAnswers(es, r, key, level, prealloc);
    }
  }

  /** The prison answers all requests on a set of keys rightly, in every run, exactly when overlap
      is transitive on them. */
  lemma RightAlwaysIff(keys: set<Key>)
    requires forall k :: k in keys ==> Proper(k)
    ensures RightAlways(keys) <==> Classed(keys)
  {
    hide Overlap, AllRight;
    if Classed(keys) {
      forall es, r | Reaches(INITIAL, es, r) && KeysOf(es) <= keys
        ensures AllRight(r, keys)
      {
        RightHere(keys, es, r);
      }
    } else {
      var k, l, m :| k in keys && l in keys && m in keys && Overlap(k, l) && Overlap(l, m) && !Overlap(k, m);
      WrongOnce(keys, k, l, m);
    }
  }

  lemma WrongOnce(keys: set<Key>, k: Key, l: Key, m: Key)
    requires Spans(k, l, m) && {k, l, m} <= keys
    ensures !RightAlways(keys)
  {
    hide Reaches, Inv, Valid, Find, Insert;
    var r := WideLockMissesBlock(k, l, m);
    var es := [GetEv(k, 0, 0, 0, 0), LockEv(l, 5, 1)];
    assert KeysOf(es) <= keys;
    OverlapBack(l, m);
    assert !RightAnswers(r, m, 0, 1);
    assert !AllRight(r, keys);
  }

  /** Both blocks are shared, and locked by one request that joined the cell of block 0. */
  ghost function BothShared(c: Cell, queue: seq<Work>, owners: set<CellId>, contAt: map<Work, WorkPlace>): (s: Sys) {
    Plain(Node(Leaf, Entry(BLOCK, 0), Node(Leaf, Entry(NEXT, 1), Leaf)), map[0 := c, 1 := Cell(NEXT, false, 0, 1, None, [])], queue,
          map[0 := 0, 1 := 1], owners, contAt,
          Requests(map[0 := Request(BLOCK, 0), 1 := Request(NEXT, 0)], if owners == {} then map[] else map[0 := Request(PAIR, 5)], {}))
  }

  const SHARE_BOTH: seq<Event> := [GetEv(BLOCK, 0, 0, 0, 0), GetEv(NEXT, 0, 1, 1, 1)]

  ghost const SHARED_BOTH := BothShared(Cell(BLOCK, false, 0, 1, None, []), [], {}, map[])
  ghost const LOCKED_FIRST := BothShared(Cell(BLOCK, true, 5, 1, None, []), [], {0}, map[])
  ghost const LOCKED_BOTH := BothShared(Cell(BLOCK, true, 5, 1, Some(7), []), [], {0}, map[7 := Waiting(0)])

  lemma ShareBoth(es: seq<Event>, r: Sys)
    requires Reaches(SHARED_BOTH, es, r)
    ensures Inv(SHARED_BOTH) && Reaches(INITIAL, SHARE_BOTH + es, r)
  {
    hide Inv, Valid, Reaches;
    var e0, e1 := SHARE_BOTH[0], SHARE_BOTH[1];
    ShareFirst(BLOCK);
    InvStep(Shared(BLOCK), e1);
    assert Step(Shared(BLOCK), e1) == SHARED_BOTH;
    Prepend(Shared(BLOCK), e1, es, r);
    Prepend(INITIAL, e0, [e1] + es, r);
    assert SHARE_BOTH + es == [e0] + ([e1] + es);
  }

  lemma LockFirst(es: seq<Event>, r: Sys)
    requires Reaches(LOCKED_FIRST, es, r)
    ensures Inv(LOCKED_FIRST) && Reaches(INITIAL, SHARE_BOTH + ([LockEv(PAIR, 5, 2)] + es), r)
  {
    hide Inv, Valid, Reaches;
    ReachesNone(SHARED_BOTH);
    ShareBoth([], SHARED_BOTH);
    var e := LockEv(PAIR, 5, 2);
    InvStep(SHARED_BOTH, e);
    assert Step(SHARED_BOTH, e) == LOCKED_FIRST;
    Prepend(SHARED_BOTH, e, es, r);
    ShareBoth([e] + es, r);
  }

  lemma LockBoth(es: seq<Event>, r: Sys)
    requires Reaches(LOCKED_BOTH, es, r)
    ensures Inv(LOCKED_BOTH) && Reaches(INITIAL, SHARE_BOTH + ([LockEv(PAIR, 5, 2), QuiesceEv(0, 7)] + es), r)
  {
    hide Inv, Valid, Reaches;
    ReachesNone(LOCKED_FIRST);
    LockFirst([], LOCKED_FIRST);
    var e2, e3 := LockEv(PAIR, 5, 2), QuiesceEv(0, 7);
    InvStep(LOCKED_FIRST, e3);
    assert Step(LOCKED_FIRST, e3) == LOCKED_BOTH;
    Prepend(LOCKED_FIRST, e3, es, r);
    LockFirst([e3] + es, r);
    assert [e2] + ([e3] + es) == [e2, e3] + es;
  }

  /** The lock on both blocks is drained by the share of block 0 alone: its continuation is
      queued while the share of block 1 is out, and another one is granted. */
  lemma WideLockNotDrained() returns (r: Sys)
    ensures Reaches(INITIAL, SHARE_BOTH + ([LockEv(PAIR, 5, 2), QuiesceEv(0, 7)] + [PutEv(0)]), r)
    ensures r.p.queue == [7] && 0 in r.req.told && 0 in r.req.locks && r.req.locks[0] == Request(PAIR, 5)
    ensures 1 in r.req.asked && r.req.asked[1] == Request(NEXT, 0) && Sharing(r, PAIR)
    ensures Walkable(r.p, NEXT) && GetShared(r.p, NEXT, 0, 2, 2).1
  {
    hide Inv, Valid, Reaches, Overlap;
    ReachesNone(LOCKED_BOTH);
    LockBoth([], LOCKED_BOTH);
    InvStep(LOCKED_BOTH, PutEv(0));
    r := Step(LOCKED_BOTH, PutEv(0));
    PairOverlaps();
    ReachesNone(r);
    Prepend(LOCKED_BOTH, PutEv(0), [], r);
    assert [PutEv(0)] + [] == [PutEv(0)];
    LockBoth([PutEv(0)], r);
  }
}
