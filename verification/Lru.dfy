/** The clock lists of md/dm-bufio.c: a ring with a cursor, reference bits, and iterators that
    survive removals.

    A ring is the sequence of its entries in link order, starting at the cursor. */
module Lru {
  import opened Collections

  type Id = nat
  type ItId = nat

  /** struct lru_iter: the next entry to test and the last one. */
  datatype Iter = Iter(e: Option<Id>, stop: Option<Id>)

  datatype List = List(ring: seq<Id>, referenced: set<Id>, iters: map<ItId, Iter>)

  /** Where x is on the ring. */
  function Pos(s: seq<Id>, x: Id): (i: nat)
    requires x in s
    ensures i < |s| && s[i] == x
  {
    if s[0] == x then 0 else 1 + Pos(s[1..], x)
  }

  function NextOf(s: seq<Id>, x: Id): (y: Id)
    requires x in s
    ensures y in s
  {
    if Pos(s, x) + 1 < |s| then s[Pos(s, x) + 1] else s[0]
  }

  function PrevOf(s: seq<Id>, x: Id): (y: Id)
    requires x in s
    ensures y in s
  {
    if Pos(s, x) > 0 then s[Pos(s, x) - 1] else s[|s| - 1]
  }

  /** The ring without the entry at i, and the ring with the cursor moved to i. */
  function Without(s: seq<Id>, i: nat): (r: seq<Id>)
    requires i < |s|
  {
    s[..i] + s[i + 1..]
  }

  function Rotate(s: seq<Id>, i: nat): (r: seq<Id>)
    requires i <= |s|
    ensures |r| == |s|
  {
    s[i..] + s[..i]
  }

  /* ---------- the list operations ---------- */

  /** lru_insert: just before the cursor, unreferenced. */
  function Insert(l: List, x: Id): (r: List) {
    l.(ring := l.ring + [x], referenced := l.referenced - {x})
  }

  /** lru_iter_invalidate, for one iterator. */
  function Invalidate(s: seq<Id>, it: Iter, x: Id): (r: Iter)
    requires x in s
  {
    Iter(if it.e != Some(x) then it.e else if NextOf(s, x) == x then None else Some(NextOf(s, x)),
         if it.stop != Some(x) then it.stop else if PrevOf(s, x) == x then None else Some(PrevOf(s, x)))
  }

  /** lru_remove. */
  function Remove(l: List, x: Id): (r: List)
    requires x in l.ring
  {
    List(Without(l.ring, Pos(l.ring, x)), l.referenced,
         map i | i in l.iters :: Invalidate(l.ring, l.iters[i], x))
  }

  /** lru_iter_begin. */
  function Begin(l: List, i: ItId): (r: List) {
    l.(iters := l.iters[i := if l.ring == [] then Iter(None, None) else Iter(Some(l.ring[0]), Some(l.ring[|l.ring| - 1]))])
  }

  /** One round of lru_iter_next: the entry to test, and the iterator moved past it. */
  function Advance(s: seq<Id>, it: Iter): (r: Iter)
    requires it.e.Some? && it.e.value in s
  {
    it.(e := if it.e == it.stop then None else Some(NextOf(s, it.e.value)))
  }

  /* ---------- spans ---------- */

  /** Index p lies on the way from i forward to s. */
  predicate Between(i: nat, s: nat, p: nat) {
    if i <= s then i <= p <= s else p >= i || p <= s
  }

  /** x is still to be tested. */
  ghost predicate InSpan(s: seq<Id>, it: Iter, x: Id) {
    && it.e.Some? && it.stop.Some? && it.e.value in s && it.stop.value in s && x in s
    && Between(Pos(s, it.e.value), Pos(s, it.stop.value), Pos(s, x))
  }

  /** The iterator does not dangle, and everything it owes a test is ahead of it. */
  ghost predicate IterOk(s: seq<Id>, it: Iter, pending: set<Id>) {
    && (it.e.Some? ==> it.e.value in s && it.stop.Some?)
    && (it.stop.Some? ==> it.stop.value in s)
    && (forall x :: x in pending ==> InSpan(s, it, x))
  }

  lemma {:induction false} PosUnique(s: seq<Id>, x: Id, i: nat)
    requires NoDup(s) && i < |s| && s[i] == x
    ensures x in s && Pos(s, x) == i
  {}

  /** Inserting keeps every iterator. */
  lemma InsertIter(s: seq<Id>, it: Iter, pending: set<Id>, x: Id)
    requires NoDup(s) && x !in s && IterOk(s, it, pending)
    ensures NoDup(s + [x]) && IterOk(s + [x], it, pending)
  {
    var t := s + [x];
    forall y | y in s
      ensures y in t && Pos(t, y) == Pos(s, y)
    {
      PosUnique(t, y, Pos(s, y));
    }
  }

  lemma PosRotate(s: seq<Id>, i: nat, y: Id)
    requires NoDup(s) && i <= |s| && y in s
    ensures NoDup(Rotate(s, i)) && y in Rotate(s, i)
    ensures Pos(Rotate(s, i), y) == if Pos(s, y) >= i then Pos(s, y) - i else Pos(s, y) + |s| - i
  {
    var t, p := Rotate(s, i), Pos(s, y);
    PosUnique(t, y, if p >= i then p - i else p + |s| - i);
  }

  /** Moving the cursor keeps every iterator. */
  lemma RotateIter(s: seq<Id>, it: Iter, pending: set<Id>, i: nat)
    requires NoDup(s) && i <= |s| && IterOk(s, it, pending)
    ensures NoDup(Rotate(s, i)) && IterOk(Rotate(s, i), it, pending)
  {
    hide Pos, Rotate;
    assert NoDup(Rotate(s, i)) by { RotateNoDup(s, i); }
    forall y | y in s
      ensures y in Rotate(s, i)
      ensures Pos(Rotate(s, i), y) == if Pos(s, y) >= i then Pos(s, y) - i else Pos(s, y) + |s| - i
    {
      PosRotate(s, i, y);
    }
  }

  lemma RotateNoDup(s: seq<Id>, i: nat)
    requires NoDup(s) && i <= |s|
    ensures NoDup(Rotate(s, i))
  {}

  lemma PosWithout(s: seq<Id>, i: nat, y: Id)
    requires NoDup(s) && i < |s| && y in s && y != s[i]
    ensures NoDup(Without(s, i)) && y in Without(s, i)
    ensures Pos(Without(s, i), y) == if Pos(s, y) > i then Pos(s, y) - 1 else Pos(s, y)
  {
    var t, p := Without(s, i), Pos(s, y);
    PosUnique(t, y, if p > i then p - 1 else p);
  }

  /** The index of an entry once index i is gone. */
  function Shift(p: nat, i: nat): (q: nat)
    requires p != i
  {
    if p > i then p - 1 else p
  }

  /** Removing an entry keeps every iterator: what it still owes, other than the removed entry,
      stays ahead of it. When the removed entry was the only one ahead, the iterator starts
      another lap. */
  lemma RemoveIter(s: seq<Id>, it: Iter, pending: set<Id>, x: Id)
    requires NoDup(s) && x in s && IterOk(s, it, pending)
    ensures NoDup(Without(s, Pos(s, x)))
    ensures IterOk(Without(s, Pos(s, x)), Invalidate(s, it, x), pending - {x})
  {
    hide Pos, Without;
    var i := Pos(s, x);
    var t, jt := Without(s, i), Invalidate(s, it, x);
    assert NoDup(t) by { WithoutNoDup(s, i); }
    forall y | y in s && y != x
      ensures y in t && Pos(s, y) != i && Pos(t, y) == Shift(Pos(s, y), i)
    {
      PosWithout(s, i, y);
    }
    NextPos(s, x);
    if |s| == 1 {
      assert forall y :: y in s ==> y == x;
    } else {
      assert NextOf(s, x) != x && PrevOf(s, x) != x;
      forall y | y in pending && y != x
        ensures InSpan(t, jt, y)
      {
        assert InSpan(s, it, y);
        SpanShrinks(|s|, i, Pos(s, it.e.value), Pos(s, it.stop.value), Pos(s, y));
      }
    }
  }

  function StepOn(n: nat, i: nat): nat { if i + 1 < n then i + 1 else 0 }

  function StepBack(n: nat, i: nat): nat { if i > 0 then i - 1 else if n > 0 then n - 1 else 0 }

  /** The index arithmetic of a removal at i, with the ends of the span moved off i. */
  lemma SpanShrinks(n: nat, i: nat, e: nat, st: nat, y: nat)
    requires n >= 2 && i < n && e < n && st < n && y < n && y != i && Between(e, st, y)
    ensures var e' := if e == i then StepOn(n, i) else e;
            var st' := if st == i then StepBack(n, i) else st;
            e' != i && st' != i && Between(Shift(e', i), Shift(st', i), Shift(y, i))
  {}

  lemma WithoutNoDup(s: seq<Id>, i: nat)
    requires NoDup(s) && i < |s|
    ensures NoDup(Without(s, i))
  {}

  lemma NextPos(s: seq<Id>, x: Id)
    requires NoDup(s) && x in s
    ensures Pos(s, NextOf(s, x)) == if Pos(s, x) + 1 < |s| then Pos(s, x) + 1 else 0
    ensures Pos(s, PrevOf(s, x)) == if Pos(s, x) > 0 then Pos(s, x) - 1 else |s| - 1
  {
    PosUnique(s, NextOf(s, x), if Pos(s, x) + 1 < |s| then Pos(s, x) + 1 else 0);
    PosUnique(s, PrevOf(s, x), if Pos(s, x) > 0 then Pos(s, x) - 1 else |s| - 1);
  }

  /** Testing an entry pays for it and for nothing else. */
  lemma AdvanceIter(s: seq<Id>, it: Iter, pending: set<Id>)
    requires NoDup(s) && IterOk(s, it, pending) && it.e.Some?
    ensures IterOk(s, Advance(s, it), pending - {it.e.value})
  {
    hide Pos;
    var x := it.e.value;
    NextPos(s, x);
    forall y | y in pending && y != x
      ensures InSpan(s, Advance(s, it), y)
    {
      assert Pos(s, y) != Pos(s, x);
    }
  }

  /** An iterator that has come to its end owes nothing. */
  lemma NothingOwed(s: seq<Id>, it: Iter, pending: set<Id>)
    requires IterOk(s, it, pending) && it.e.None?
    ensures pending == {}
  {
    assert forall x :: x in pending ==> InSpan(s, it, x);
  }

  /** A fresh iterator owes a test to every entry. */
  lemma BeginIter(s: seq<Id>)
    requires NoDup(s) && s != []
    ensures IterOk(s, Iter(Some(s[0]), Some(s[|s| - 1])), set y | y in s)
  {
    PosUnique(s, s[0], 0);
    PosUnique(s, s[|s| - 1], |s| - 1);
  }

  /* ---------- eviction ---------- */

  datatype Verdict = Evict | DontEvict | Stop

  /** How many of the first i entries are referenced. */
  function CountRef(s: seq<Id>, refs: set<Id>, i: nat): (n: nat)
    requires i <= |s|
    ensures n <= i
  {
    if i == 0 then 0 else CountRef(s, refs, i - 1) + if s[i - 1] in refs then 1 else 0
  }

  /** The first index from i on that is unreferenced and settles the search, or the length. */
  function FirstHit(s: seq<Id>, refs: set<Id>, pred: Id -> Verdict, i: nat): (r: nat)
    requires i <= |s|
    ensures i <= r <= |s|
    ensures r < |s| ==> s[r] !in refs && pred(s[r]) != DontEvict
    ensures forall j :: i <= j < r ==> s[j] in refs || pred(s[j]) == DontEvict
    decreases |s| - i
  {
    if i == |s| then i
    else if s[i] !in refs && pred(s[i]) != DontEvict then i
    else FirstHit(s, refs, pred, i + 1)
  }

  /** The search has settled at index i: the cursor moves past it, and the entry goes if the
      verdict says so. */
  ghost function Settle(l: List, pred: Id -> Verdict, i: nat): (r: (List, Option<Id>))
    requires i < |l.ring|
  {
    var x, moved := l.ring[i], l.(ring := Rotate(l.ring, i + 1));
    if pred(x) == Evict then (Remove(moved, x), Some(x)) else (moved, None)
  }

  /** What lru_evict does: one lap that skips and clears referenced entries; then, for as many
      entries as were referenced, a second lap over the front of the ring. */
  ghost function EvictSpec(l: List, pred: Id -> Verdict): (r: (List, Option<Id>)) {
    var s := l.ring;
    var i := FirstHit(s, l.referenced, pred, 0);
    if i < |s| then Settle(l.(referenced := l.referenced - Elements(s[..i])), pred, i)
    else
      var cleared := l.(referenced := l.referenced - Elements(s));
      var j := FirstHit(SecondLap(l), {}, pred, 0);
      if j < |SecondLap(l)| then Settle(cleared, pred, j) else (cleared, None)
  }

  /** The entries that get a test on the second lap. */
  function SecondLap(l: List): (s: seq<Id>) { l.ring[..CountRef(l.ring, l.referenced, |l.ring|)] }

  /** No verdict settled the search. */
  ghost predicate Exhausted(l: List, pred: Id -> Verdict) {
    && FirstHit(l.ring, l.referenced, pred, 0) == |l.ring|
    && FirstHit(SecondLap(l), {}, pred, 0) == |SecondLap(l)|
  }

  /** An exhausted search leaves no reference bit set, and every entry that was unreferenced
      has been refused. */
  lemma ExhaustedMeans(l: List, pred: Id -> Verdict)
    requires Exhausted(l, pred)
    ensures EvictSpec(l, pred) == (l.(referenced := l.referenced - Elements(l.ring)), None)
    ensures forall i :: 0 <= i < |l.ring| && (l.ring[i] !in l.referenced || i < |SecondLap(l)|) ==> pred(l.ring[i]) == DontEvict
  {
    var t := SecondLap(l);
    forall i | 0 <= i < |l.ring| && (l.ring[i] !in l.referenced || i < |t|)
      ensures pred(l.ring[i]) == DontEvict
    {
      if l.ring[i] in l.referenced { assert t[i] == l.ring[i]; }
    }
  }

  /** Two exhausted searches in a row: no entry passes the predicate. */
  lemma ExhaustedTwice(l: List, pred: Id -> Verdict)
    requires Exhausted(l, pred) && Exhausted(EvictSpec(l, pred).0, pred)
    ensures forall x :: x in l.ring ==> pred(x) == DontEvict
  {
    ExhaustedMeans(l, pred);
    ExhaustedMeans(EvictSpec(l, pred).0, pred);
    forall x | x in l.ring
      ensures pred(x) == DontEvict
    {
      var i :| 0 <= i < |l.ring| && l.ring[i] == x;
      assert x in Elements(l.ring);
    }
  }

  /** The referenced entries are the first ones on the ring. */
  ghost predicate ReferencedFirst(l: List) {
    forall i :: 0 <= i < |l.ring| && l.ring[i] in l.referenced ==> i < |SecondLap(l)|
  }

  /** One search is conclusive, for every predicate, exactly when the referenced entries come
      first: otherwise some referenced entry is never tested. */
  lemma ExhaustedConclusiveIff(l: List)
    requires NoDup(l.ring)
    ensures ReferencedFirst(l) <==>
            forall pred: Id -> Verdict :: Exhausted(l, pred) ==> forall x :: x in l.ring ==> pred(x) == DontEvict
  {
    if ReferencedFirst(l) {
      forall pred: Id -> Verdict | Exhausted(l, pred)
        ensures forall x :: x in l.ring ==> pred(x) == DontEvict
      {
        ExhaustedMeans(l, pred);
      }
    } else {
      var i :| 0 <= i < |l.ring| && l.ring[i] in l.referenced && i >= |SecondLap(l)|;
      var x := l.ring[i];
      var pred: Id -> Verdict := y => if y == x then Evict else DontEvict;
      assert pred(x) == Evict;
      assert Exhausted(l, pred);
    }
  }

  /** In particular a search can come back empty-handed although an entry could go. */
  lemma MissedEntry(l: List, pred: Id -> Verdict)
    requires l == List([0, 1], {1}, map[]) && pred(0) == DontEvict && pred(1) == Evict
    ensures Exhausted(l, pred) && EvictSpec(l, pred).1 == None && 1 in l.ring
  {
    assert CountRef(l.ring, l.referenced, 2) == CountRef(l.ring, l.referenced, 1) + 1 == 1;
    assert SecondLap(l) == [0];
    ExhaustedMeans(l, pred);
  }

  /** What eviction does to the entries, whatever their order. */
  ghost predicate TookOut(l: List, l': List, r: Option<Id>) {
    && NoDup(l'.ring)
    && (r.Some? ==> r.value in l.ring && |l'.ring| == |l.ring| - 1)
    && (r.None? ==> |l'.ring| == |l.ring|)
    && (forall x :: x in l'.ring <==> x in l.ring && r != Some(x))
  }

  lemma RemoveTakesOut(l: List, x: Id)
    requires NoDup(l.ring) && x in l.ring
    ensures TookOut(l, Remove(l, x), Some(x))
  {
    var i := Pos(l.ring, x);
    WithoutNoDup(l.ring, i);
    var t := Without(l.ring, i);
    forall y | y in l.ring && y != x
      ensures y in t
    {
      PosWithout(l.ring, i, y);
    }
    forall j | 0 <= j < |t|
      ensures t[j] in l.ring && t[j] != x
    {
      assert t[j] == if j < i then l.ring[j] else l.ring[j + 1];
    }
  }

  lemma RotateTakesNothing(l: List, i: nat)
    requires NoDup(l.ring) && i <= |l.ring|
    ensures TookOut(l, l.(ring := Rotate(l.ring, i)), None)
  {
    RotateNoDup(l.ring, i);
    forall y | y in l.ring
      ensures y in Rotate(l.ring, i)
    {
      RotateHas(l.ring, i, y);
    }
  }

  lemma SettleTakesOut(l: List, pred: Id -> Verdict, i: nat)
    requires NoDup(l.ring) && i < |l.ring|
    ensures var (l', r) := Settle(l, pred, i);
            TookOut(l, l', r) && (r.Some? ==> r.value == l.ring[i] && pred(l.ring[i]) == Evict)
  {
    hide NoDup, Rotate, Remove;
    var m := l.(ring := Rotate(l.ring, i + 1));
    RotateTakesNothing(l, i + 1);
    if pred(l.ring[i]) == Evict { RemoveTakesOut(m, l.ring[i]); }
  }

  /** An evicted entry was on the ring and passed the predicate; nothing else leaves. */
  lemma EvictTakesOut(l: List, pred: Id -> Verdict)
    requires NoDup(l.ring)
    ensures var (l', r) := EvictSpec(l, pred);
            TookOut(l, l', r) && (r.Some? ==> pred(r.value) == Evict)
  {
    hide Settle, CountRef;
    var s := l.ring;
    var i := FirstHit(s, l.referenced, pred, 0);
    if i < |s| {
      SettleTakesOut(l.(referenced := l.referenced - Elements(s[..i])), pred, i);
    } else {
      var j := FirstHit(SecondLap(l), {}, pred, 0);
      if j < |SecondLap(l)| { SettleTakesOut(l.(referenced := l.referenced - Elements(s)), pred, j); }
    }
  }

  /** If every entry may go, one goes, unless the ring is empty. */
  lemma EvictFinds(l: List, pred: Id -> Verdict)
    requires forall x :: x in l.ring ==> pred(x) == Evict
    ensures EvictSpec(l, pred).1.None? <==> l.ring == []
  {
    if l.ring != [] {
      var i := FirstHit(l.ring, l.referenced, pred, 0);
      if i == |l.ring| {
        AllReferenced(l.ring, l.referenced, |l.ring|);
        assert SecondLap(l) == l.ring;
      }
    }
  }

  lemma {:induction false} AllReferenced(s: seq<Id>, refs: set<Id>, n: nat)
    requires n <= |s| && forall j :: 0 <= j < n ==> s[j] in refs
    ensures CountRef(s, refs, n) == n
    decreases n
  {
    if n > 0 { AllReferenced(s, refs, n - 1); }
  }

  /** Reference bits are only ever cleared; and when nothing was found and no verdict said
      stop, all are clear and every entry that had none was refused. */
  lemma EvictRefs(l: List, pred: Id -> Verdict)
    ensures EvictSpec(l, pred).0.referenced <= l.referenced
    ensures EvictSpec(l, pred).1.None? && (forall x :: pred(x) != Stop) ==>
              && EvictSpec(l, pred).0 == l.(referenced := l.referenced - Elements(l.ring))
              && forall x :: x in l.ring && x !in l.referenced ==> pred(x) == DontEvict
  {
    hide CountRef;
    if EvictSpec(l, pred).1.None? && (forall x :: pred(x) != Stop) { ExhaustedMeans(l, pred); }
  }

  lemma {:induction false} CountRefMonotone(s: seq<Id>, refs: set<Id>, i: nat, j: nat)
    requires i <= j <= |s|
    ensures CountRef(s, refs, i) <= CountRef(s, refs, j)
    decreases j
  {
    if i < j { CountRefMonotone(s, refs, i, j - 1); }
  }

  /** The ring once the entry at i has been evicted. */
  lemma EvictedRing(s: seq<Id>, i: nat)
    requires NoDup(s) && i < |s|
    ensures s[i] in Rotate(s, i + 1)
    ensures Without(Rotate(s, i + 1), Pos(Rotate(s, i + 1), s[i])) == s[i + 1..] + s[..i]
  {
    RotateNoDup(s, i + 1);
    assert Rotate(s, i + 1)[|s| - 1] == s[i];
    PosUnique(Rotate(s, i + 1), s[i], |s| - 1);
  }

  /** The entries after i keep their bits, those before it lose them. */
  lemma {:induction false} CountRefShift(s: seq<Id>, refs: set<Id>, i: nat, n: nat)
    requires NoDup(s) && i < |s| && n <= |s| - i - 1
    ensures CountRef(s[i + 1..] + s[..i], refs - Elements(s[..i]), n) == CountRef(s, refs, i + 1 + n) - CountRef(s, refs, i + 1)
    decreases n
  {
    if n > 0 {
      CountRefShift(s, refs, i, n - 1);
      assert (s[i + 1..] + s[..i])[n - 1] == s[i + n] && s[i + n] !in s[..i];
    }
  }

  lemma EvictedList(l: List, pred: Id -> Verdict)
    requires NoDup(l.ring) && FirstHit(l.ring, l.referenced, pred, 0) < |l.ring| && pred(l.ring[FirstHit(l.ring, l.referenced, pred, 0)]) == Evict
    ensures var i := FirstHit(l.ring, l.referenced, pred, 0);
            && EvictSpec(l, pred).0.ring == l.ring[i + 1..] + l.ring[..i]
            && EvictSpec(l, pred).0.referenced == l.referenced - Elements(l.ring[..i])
  {
    hide CountRef, Pos, NoDup, Without, Rotate;
    EvictedRing(l.ring, FirstHit(l.ring, l.referenced, pred, 0));
  }

  /** Second chance: while some entry without a reference may go, none with one does; and whatever
      is evicted, all entries met before it were referenced or refused. */
  lemma SecondChance(l: List, pred: Id -> Verdict, z: Id)
    requires NoDup(l.ring) && z in l.ring && z !in l.referenced && pred(z) == Evict && forall x :: pred(x) != Stop
    ensures var r := EvictSpec(l, pred).1;
            && r.Some? && r.value in l.ring && r.value !in l.referenced && pred(r.value) == Evict
            && forall j :: 0 <= j < Pos(l.ring, r.value) ==> l.ring[j] in l.referenced || pred(l.ring[j]) == DontEvict
  {
    hide CountRef, Remove, Rotate;
    var j :| 0 <= j < |l.ring| && l.ring[j] == z;
    var h := FirstHit(l.ring, l.referenced, pred, 0);
    PosUnique(l.ring, l.ring[h], h);
  }

  /** A search takes up where the one before left off: what it passed over, its reference gone, is
      met again only after all the rest. */
  lemma TakesUp(l: List, pred: Id -> Verdict, z: Id)
    requires NoDup(l.ring) && z in l.ring && z !in l.referenced && pred(z) == Evict && forall x :: pred(x) != Stop
    ensures var (l', r) := EvictSpec(l, pred);
            && r.Some? && r.value in l.ring
            && var i := Pos(l.ring, r.value);
               l'.ring == l.ring[i + 1..] + l.ring[..i] && l'.referenced == l.referenced - Elements(l.ring[..i])
  {
    hide CountRef, EvictSpec;
    SecondChance(l, pred, z);
    var j :| 0 <= j < |l.ring| && l.ring[j] == z;
    var h := FirstHit(l.ring, l.referenced, pred, 0);
    EvictedList(l, pred);
    PosUnique(l.ring, l.ring[h], h);
    FirstHitGoes(l, pred);
  }

  lemma FirstHitGoes(l: List, pred: Id -> Verdict)
    requires FirstHit(l.ring, l.referenced, pred, 0) < |l.ring| && pred(l.ring[FirstHit(l.ring, l.referenced, pred, 0)]) == Evict
    ensures EvictSpec(l, pred).1 == Some(l.ring[FirstHit(l.ring, l.referenced, pred, 0)])
  {
    hide CountRef, Remove, Rotate;
  }

  /** A fresh entry is the last that a search meets: it goes only if every other is referenced or
      refused. */
  lemma FreshLast(l: List, x: Id, pred: Id -> Verdict)
    requires NoDup(l.ring) && x !in l.ring && (forall y :: pred(y) != Stop) && EvictSpec(Insert(l, x), pred).1 == Some(x)
    ensures forall y :: y in l.ring ==> y in l.referenced || pred(y) == DontEvict
  {
    hide CountRef, EvictSpec;
    var m := Insert(l, x);
    PushNoDup(l.ring, x);
    PosUnique(m.ring, x, |l.ring|);
    forall j | 0 <= j < |l.ring|
      ensures l.ring[j] in l.referenced || pred(l.ring[j]) == DontEvict
    {
      assert m.ring[j] == l.ring[j];
      if l.ring[j] !in l.referenced && pred(l.ring[j]) == Evict { SecondChance(m, pred, l.ring[j]); }
    }
  }

  /** Nor is a fresh entry that may go ever missed. */
  lemma FreshFound(l: List, x: Id, pred: Id -> Verdict)
    requires NoDup(l.ring) && x !in l.ring && pred(x) == Evict && forall y :: pred(y) != Stop
    ensures var r := EvictSpec(Insert(l, x), pred).1; r.Some? && (r.value == x || r.value !in l.referenced)
  {
    hide CountRef, EvictSpec, Pos;
    PushNoDup(l.ring, x);
    assert Insert(l, x).ring[|l.ring|] == x;
    SecondChance(Insert(l, x), pred, x);
  }

  /** An eviction on the first lap brings the referenced entries no further back: what was among
      the first as many entries as are referenced still is. */
  lemma FirstLapKeepsFirst(l: List, pred: Id -> Verdict, k: nat)
    requires NoDup(l.ring) && FirstHit(l.ring, l.referenced, pred, 0) < |l.ring| && pred(l.ring[FirstHit(l.ring, l.referenced, pred, 0)]) == Evict
    requires k < |EvictSpec(l, pred).0.ring| && EvictSpec(l, pred).0.ring[k] in EvictSpec(l, pred).0.referenced
    ensures var x := EvictSpec(l, pred).0.ring[k];
            x in l.referenced && x in l.ring && (Pos(l.ring, x) < |SecondLap(l)| ==> k < |SecondLap(EvictSpec(l, pred).0)|)
  {
    hide CountRef, Pos, EvictSpec, NoDup;
    var s, i := l.ring, FirstHit(l.ring, l.referenced, pred, 0);
    EvictedList(l, pred);
    var t, refs := s[i + 1..] + s[..i], l.referenced - Elements(s[..i]);
    assert forall j :: 0 <= j < i ==> s[j] in Elements(s[..i]);
    PosUnique(s, t[k], i + 1 + k);
    CountRefShift(s, l.referenced, i, |s| - i - 1);
    CountRefNext(s, l.referenced, i);
    CountRefMonotone(t, refs, |s| - i - 1, |t|);
  }

  /* ---------- the list as the source keeps it ---------- */

  /** Consecutive entries of the ring. */
  ghost predicate Consecutive(s: seq<Id>, run: seq<Id>) {
    && (forall j :: 0 <= j < |run| ==> run[j] in s)
    && (forall j :: 0 <= j < |run| - 1 ==> run[j + 1] == NextOf(s, run[j]))
  }

  lemma ConsecutiveNone(s: seq<Id>)
    ensures Consecutive(s, [])
  {}

  lemma ConsecutivePush(s: seq<Id>, run: seq<Id>, x: Id)
    requires Consecutive(s, run) && x in s
    requires run != [] ==> run[|run| - 1] in s && x == NextOf(s, run[|run| - 1])
    ensures Consecutive(s, run + [x])
  {
    hide NextOf;
  }

  /** How many entries are ahead. */
  ghost function SpanSize(s: seq<Id>, it: Iter): (n: nat)
    requires it.e.Some? ==> it.e.value in s && it.stop.Some? && it.stop.value in s
  {
    if it.e.None? then 0
    else
      var i, j := Pos(s, it.e.value), Pos(s, it.stop.value);
      if i <= j then j - i + 1 else j + |s| - i + 1
  }

  lemma SpanSizeDrops(s: seq<Id>, it: Iter)
    requires NoDup(s) && it.e.Some? && it.e.value in s && it.stop.Some? && it.stop.value in s
    ensures var jt := Advance(s, it);
            (jt.e.Some? ==> jt.e.value in s) && SpanSize(s, jt) == SpanSize(s, it) - 1
  {
    hide Pos;
    NextPos(s, it.e.value);
    if it.e != it.stop { assert Pos(s, it.e.value) != Pos(s, it.stop.value); }
  }

  /** struct lru. */
  class LruList {
    var ring: seq<Id>
    var count: nat
    var referenced: set<Id>
    var iters: map<ItId, Iter>

    ghost function State(): List
      reads this
    {
      List(ring, referenced, iters)
    }

    ghost predicate Valid()
      reads this
    {
      count == |ring| && NoDup(ring)
    }

    constructor ()
      ensures Valid() && State() == List([], {}, map[])
    {
      ring, count, referenced, iters := [], 0, {}, map[];
    }

    method LruInsert(x: Id)
      requires Valid() && x !in ring
      modifies this
      ensures Valid() && State() == Insert(old(State()), x)
    {
      referenced := referenced - {x};
      ring := ring + [x];
      count := count + 1;
    }

    method LruReference(x: Id)
      modifies this`referenced
      ensures State() == old(State()).(referenced := old(referenced) + {x})
    {
      referenced := referenced + {x};
    }

    method LruRemove(x: Id)
      requires Valid() && x in ring
      modifies this
      ensures Valid() && State() == Remove(old(State()), x)
    {
      iters := map i | i in iters :: Invalidate(ring, iters[i], x);
      var i := Pos(ring, x);
      WithoutNoDup(ring, i);
      ring := Without(ring, i);
      count := count - 1;
    }

    method IterBegin(i: ItId)
      modifies this`iters
      ensures State() == Begin(old(State()), i)
    {
      if ring == [] {
        iters := iters[i := Iter(None, None)];
      } else {
        iters := iters[i := Iter(Some(ring[0]), Some(ring[|ring| - 1]))];
      }
    }

    /** lru_iter_next: tests entries in turn until one passes or the lap is over. The tested
        entries are those from the iterator's position on, in ring order; only the last one
        can have passed; and what the iterator owes shrinks by exactly these. */
    method IterNext(i: ItId, pred: Id -> bool, ghost pending: set<Id>) returns (r: Option<Id>, ghost tested: seq<Id>)
      requires Valid() && i in iters && IterOk(ring, iters[i], pending)
      modifies this`iters
      ensures i in iters && iters == old(iters)[i := iters[i]]
      ensures IterOk(ring, iters[i], pending - Elements(tested))
      ensures Consecutive(ring, tested) && (tested != [] ==> old(iters[i]).e == Some(tested[0]))
      ensures r.Some? ==> tested != [] && r.value == tested[|tested| - 1] && pred(r.value)
      ensures forall j :: 0 <= j < |tested| - (if r.Some? then 1 else 0) ==> !pred(tested[j])
      ensures r.None? ==> iters[i].e.None? && pending <= Elements(tested)
    {
      hide Pos, NextOf, InSpan, Consecutive;
      tested := [];
      ConsecutiveNone(ring);
      while iters[i].e.Some?
        invariant i in iters && iters == old(iters)[i := iters[i]]
        invariant IterOk(ring, iters[i], pending - Elements(tested))
        invariant Consecutive(ring, tested) && forall j :: 0 <= j < |tested| ==> !pred(tested[j])
        invariant if tested == [] then iters[i] == old(iters[i])
                  else old(iters[i]).e == Some(tested[0]) && tested[|tested| - 1] in ring &&
                       (iters[i].e.Some? ==> iters[i].e == Some(NextOf(ring, tested[|tested| - 1])))
        decreases SpanSize(ring, iters[i])
      {
        var x := iters[i].e.value;
        AdvanceIter(ring, iters[i], pending - Elements(tested));
        SpanSizeDrops(ring, iters[i]);
        iters := iters[i := Advance(ring, iters[i])];
        assert pending - Elements(tested + [x]) == pending - Elements(tested) - {x};
        ConsecutivePush(ring, tested, x);
        tested := tested + [x];
        if pred(x) {
          return Some(x), tested;
        }
      }
      NothingOwed(ring, iters[i], pending - Elements(tested));
      assert forall x :: x in pending ==> x in Elements(tested) || x in pending - Elements(tested);
      return None, tested;
    }

    method IterEnd(i: ItId)
      modifies this`iters
      ensures State() == old(State()).(iters := old(iters) - {i})
    {
      iters := iters - {i};
    }

    /** lru_evict. Each round clears a reference bit or counts a test, so there are at most
        twice as many rounds as entries, the one that settles the search included. */
    method LruEvict(pred: Id -> Verdict) returns (r: Option<Id>, ghost rounds: nat)
      requires Valid()
      modifies this
      ensures Valid() && (State(), r) == EvictSpec(old(State()), pred)
      ensures rounds <= 2 * |old(ring)|
    {
      hide Pos, Remove, EvictSpec, Progress, NoDup, Rotate;
      rounds := 0;
      ghost var l := State();
      if ring == [] {
        EvictEmpty(l, pred);
        return None, rounds;
      }
      ProgressStart(l, pred);
      var tested, h := 0, 0;
      while tested < count
        invariant State() == l.(referenced := referenced) && count == |ring| && 0 <= h < count
        invariant Progress(l, pred, referenced, tested, h, rounds) && rounds <= 2 * count
        decreases 2 * count - rounds
      {
        ProgressRoom(l, pred, referenced, tested, h, rounds);
        var x := ring[h];
        if x in referenced {
          ProgressClear(l, pred, referenced, tested, h, rounds);
          referenced := referenced - {x};
        } else {
          if pred(x) != DontEvict {
            ProgressSettles(l, pred, referenced, tested, h, rounds);
            assert NoDup(Rotate(ring, h + 1)) && x in Rotate(ring, h + 1) by { RotateHas(ring, h + 1, x); }
          } else {
            ProgressRefuse(l, pred, referenced, tested, h, rounds);
          }
          tested := tested + 1;
          match pred(x) {
            case Evict =>
              ring := Rotate(ring, h + 1);
              LruRemove(x);
              return Some(x), rounds + 1;
            case Stop =>
              ring := Rotate(ring, h + 1);
              return None, rounds + 1;
            case DontEvict =>
          }
        }
        rounds := rounds + 1;
        h := if h + 1 < |ring| then h + 1 else 0;
      }
      ProgressDone(l, pred, referenced, tested, h, rounds);
      return None, rounds;
    }
  }

  /** The first lap has reached index h. */
  ghost predicate OnFirstLap(l: List, pred: Id -> Verdict, refs: set<Id>, tested: nat, h: nat) {
    && h <= |l.ring| && tested + CountRef(l.ring, l.referenced, h) == h
    && refs == l.referenced - Elements(l.ring[..h])
    && FirstHit(l.ring, l.referenced, pred, 0) == FirstHit(l.ring, l.referenced, pred, h)
  }

  /** The second lap has reached index h. */
  ghost predicate OnSecondLap(l: List, pred: Id -> Verdict, refs: set<Id>, tested: nat, h: nat) {
    && h <= |SecondLap(l)| && tested + |SecondLap(l)| == |l.ring| + h
    && refs == l.referenced - Elements(l.ring)
    && FirstHit(l.ring, l.referenced, pred, 0) == |l.ring|
    && FirstHit(SecondLap(l), {}, pred, 0) == FirstHit(SecondLap(l), {}, pred, h)
  }

  /** Where the search is after so many rounds. */
  ghost predicate Progress(l: List, pred: Id -> Verdict, refs: set<Id>, tested: nat, h: nat, rounds: nat) {
    if tested == |l.ring| then Exhausted(l, pred) && refs == l.referenced - Elements(l.ring)
    else if rounds < |l.ring| then rounds == h && OnFirstLap(l, pred, refs, tested, h)
    else rounds == |l.ring| + h && OnSecondLap(l, pred, refs, tested, h)
  }

  lemma EvictEmpty(l: List, pred: Id -> Verdict)
    requires l.ring == []
    ensures EvictSpec(l, pred) == (l, None)
  {
    assert Elements(l.ring) == {} && SecondLap(l) == [];
    assert l.referenced - {} == l.referenced;
  }

  lemma ProgressStart(l: List, pred: Id -> Verdict)
    requires l.ring != []
    ensures Progress(l, pred, l.referenced, 0, 0, 0)
  {
    assert Elements(l.ring[..0]) == {};
  }

  /** Going round from the last index. */
  lemma LapOver(l: List, pred: Id -> Verdict, refs: set<Id>, tested: nat)
    requires OnFirstLap(l, pred, refs, tested, |l.ring|)
    ensures OnSecondLap(l, pred, refs, tested, 0)
  {
    assert l.ring[..|l.ring|] == l.ring;
  }

  lemma ProgressClear(l: List, pred: Id -> Verdict, refs: set<Id>, tested: nat, h: nat, rounds: nat)
    requires Progress(l, pred, refs, tested, h, rounds) && tested < |l.ring| && h < |l.ring| && l.ring[h] in refs
    ensures Progress(l, pred, refs - {l.ring[h]}, tested, if h + 1 < |l.ring| then h + 1 else 0, rounds + 1)
  {
    hide FirstHit, CountRef;
    assert l.ring[h] in Elements(l.ring);
    FirstHitSkips(l.ring, l.referenced, pred, h);
    CountRefNext(l.ring, l.referenced, h);
    assert Elements(l.ring[..h + 1]) == Elements(l.ring[..h]) + {l.ring[h]};
    if h + 1 == |l.ring| { LapOver(l, pred, refs - {l.ring[h]}, tested); }
  }

  lemma FirstHitSkips(s: seq<Id>, refs: set<Id>, pred: Id -> Verdict, h: nat)
    requires h < |s| && (s[h] in refs || pred(s[h]) == DontEvict)
    ensures FirstHit(s, refs, pred, h) == FirstHit(s, refs, pred, h + 1)
  {}

  lemma CountRefNext(s: seq<Id>, refs: set<Id>, h: nat)
    requires h < |s|
    ensures CountRef(s, refs, h + 1) == CountRef(s, refs, h) + if s[h] in refs then 1 else 0
  {}

  lemma ProgressRefuse(l: List, pred: Id -> Verdict, refs: set<Id>, tested: nat, h: nat, rounds: nat)
    requires Progress(l, pred, refs, tested, h, rounds) && NoDup(l.ring) && tested < |l.ring|
    requires h < |l.ring| && l.ring[h] !in refs && pred(l.ring[h]) == DontEvict
    ensures Progress(l, pred, refs, tested + 1, if h + 1 < |l.ring| then h + 1 else 0, rounds + 1)
  {
    hide FirstHit, CountRef;
    if rounds < |l.ring| {
      FirstHitSkips(l.ring, l.referenced, pred, h);
      CountRefNext(l.ring, l.referenced, h);
      assert Elements(l.ring[..h + 1]) == Elements(l.ring[..h]) + {l.ring[h]};
      assert l.ring[h] !in l.ring[..h];
      if h + 1 == |l.ring| {
        LapOver(l, pred, refs, tested + 1);
        if tested + 1 == |l.ring| { FirstHitEnd(SecondLap(l), pred); }
      }
    } else {
      FirstHitSkips(SecondLap(l), {}, pred, h);
      FirstHitEnd(SecondLap(l), pred);
    }
  }

  lemma FirstHitEnd(s: seq<Id>, pred: Id -> Verdict)
    ensures FirstHit(s, {}, pred, |s|) == |s|
  {}

  /** While tests are left there is room for another round. */
  lemma ProgressRoom(l: List, pred: Id -> Verdict, refs: set<Id>, tested: nat, h: nat, rounds: nat)
    requires Progress(l, pred, refs, tested, h, rounds) && tested < |l.ring|
    ensures rounds < 2 * |l.ring|
  {}

  /** An unreferenced entry with another verdict settles the search here. */
  lemma ProgressSettles(l: List, pred: Id -> Verdict, refs: set<Id>, tested: nat, h: nat, rounds: nat)
    requires Progress(l, pred, refs, tested, h, rounds) && NoDup(l.ring) && tested < |l.ring|
    requires h < |l.ring| && l.ring[h] !in refs && pred(l.ring[h]) != DontEvict
    ensures EvictSpec(l, pred) == Settle(l.(referenced := refs), pred, h)
  {
    hide Settle, CountRef;
    if rounds < |l.ring| {
      assert l.ring[h] !in l.ring[..h];
      assert l.ring[h] !in l.referenced;
    }
  }

  lemma ProgressDone(l: List, pred: Id -> Verdict, refs: set<Id>, tested: nat, h: nat, rounds: nat)
    requires Progress(l, pred, refs, tested, h, rounds) && tested >= |l.ring| && l.ring != []
    ensures EvictSpec(l, pred) == (l.(referenced := refs), None)
  {
    hide CountRef;
    ExhaustedMeans(l, pred);
  }

  lemma RotateHas(s: seq<Id>, i: nat, x: Id)
    requires NoDup(s) && i <= |s| && x in s
    ensures NoDup(Rotate(s, i)) && x in Rotate(s, i)
  {
    RotateNoDup(s, i);
    var j :| 0 <= j < |s| && s[j] == x;
    assert Rotate(s, i)[if j >= i then j - i else j + |s| - i] == x;
  }

  /* ---------- runs ---------- */

  /** owed records, for each iterator, the entries that have been on the ring ever since it
      began and that it has not tested. */
  datatype Sys = Sys(l: List, owed: map<ItId, set<Id>>)

  datatype Event =
    | InsertEv(x: Id)
    | ReferenceEv(x: Id)
    | RemoveEv(x: Id)
    | EvictEv(pred: Id -> Verdict)
    | BeginEv(i: ItId)
    | TestEv(i: ItId)
    | EndEv(i: ItId)

  ghost predicate Legal(s: Sys, e: Event) {
    match e
    case InsertEv(x) => x !in s.l.ring
    case ReferenceEv(_) => true
    case RemoveEv(x) => x in s.l.ring
    case EvictEv(_) => true
    case BeginEv(_) => true
    case TestEv(i) => i in s.l.iters && i in s.owed && s.l.iters[i].e.Some? && s.l.iters[i].e.value in s.l.ring
    case EndEv(_) => true
  }

  ghost function Forget(owed: map<ItId, set<Id>>, gone: set<Id>): (r: map<ItId, set<Id>>) {
    map i | i in owed :: owed[i] - gone
  }

  lemma ForgetNone(owed: map<ItId, set<Id>>)
    ensures Forget(owed, {}) == owed
  {
    assert forall i :: i in owed ==> owed[i] - {} == owed[i];
  }

  ghost function Step(s: Sys, e: Event): (r: Sys)
    requires Legal(s, e)
  {
    var l := s.l;
    match e
    case InsertEv(x) => s.(l := Insert(l, x))
    case ReferenceEv(x) => s.(l := l.(referenced := l.referenced + {x}))
    case RemoveEv(x) => Sys(Remove(l, x), Forget(s.owed, {x}))
    case EvictEv(pred) =>
      var (l', r) := EvictSpec(l, pred);
      Sys(l', Forget(s.owed, if r.Some? then {r.value} else {}))
    case BeginEv(i) => Sys(Begin(l, i), s.owed[i := Elements(l.ring)])
    case TestEv(i) =>
      Sys(l.(iters := l.iters[i := Advance(l.ring, l.iters[i])]), s.owed[i := s.owed[i] - {l.iters[i].e.value}])
    case EndEv(i) => Sys(l.(iters := l.iters - {i}), s.owed - {i})
  }

  ghost predicate Inv(s: Sys) {
    && NoDup(s.l.ring) && s.owed.Keys == s.l.iters.Keys
    && forall i :: i in s.l.iters ==> IterOk(s.l.ring, s.l.iters[i], s.owed[i])
  }

  lemma RemoveKeeps(s: Sys, x: Id)
    requires Inv(s) && x in s.l.ring
    ensures Inv(Sys(Remove(s.l, x), Forget(s.owed, {x})))
  {
    hide IterOk, Pos, Without, NoDup;
    var r := Sys(Remove(s.l, x), Forget(s.owed, {x}));
    WithoutNoDup(s.l.ring, Pos(s.l.ring, x));
    forall i | i in r.l.iters
      ensures IterOk(r.l.ring, r.l.iters[i], r.owed[i])
    {
      RemoveIter(s.l.ring, s.l.iters[i], s.owed[i], x);
    }
  }

  lemma RotateKeeps(s: Sys, i: nat)
    requires Inv(s) && i <= |s.l.ring|
    ensures Inv(s.(l := s.l.(ring := Rotate(s.l.ring, i))))
  {
    hide IterOk, Rotate, NoDup;
    RotateNoDup(s.l.ring, i);
    forall j | j in s.l.iters
      ensures IterOk(Rotate(s.l.ring, i), s.l.iters[j], s.owed[j])
    {
      RotateIter(s.l.ring, s.l.iters[j], s.owed[j], i);
    }
  }

  lemma SettleKeeps(s: Sys, pred: Id -> Verdict, h: nat)
    requires Inv(s) && h < |s.l.ring|
    ensures var (l, r) := Settle(s.l, pred, h); Inv(Sys(l, Forget(s.owed, if r.Some? then {r.value} else {})))
  {
    hide Inv, Rotate, Remove;
    assert NoDup(s.l.ring) && s.owed.Keys == s.l.iters.Keys by { InvParts(s); }
    var x := s.l.ring[h];
    var m := s.(l := s.l.(ring := Rotate(s.l.ring, h + 1)));
    RotateKeeps(s, h + 1);
    RotateHas(s.l.ring, h + 1, x);
    if pred(x) == Evict { RemoveKeeps(m, x); }
    ForgetNone(s.owed);
  }

  lemma InvParts(s: Sys)
    requires Inv(s)
    ensures NoDup(s.l.ring) && s.owed.Keys == s.l.iters.Keys
  {}

  lemma RefsIrrelevant(s: Sys, refs: set<Id>)
    requires Inv(s)
    ensures Inv(s.(l := s.l.(referenced := refs)))
  {}

  lemma EvictKeeps(s: Sys, pred: Id -> Verdict)
    requires Inv(s)
    ensures var (l, r) := EvictSpec(s.l, pred); Inv(Sys(l, Forget(s.owed, if r.Some? then {r.value} else {})))
  {
    hide Inv, Settle, CountRef;
    var ring := s.l.ring;
    var i := FirstHit(ring, s.l.referenced, pred, 0);
    ForgetNone(s.owed);
    if i < |ring| {
      RefsIrrelevant(s, s.l.referenced - Elements(ring[..i]));
      SettleKeeps(s.(l := s.l.(referenced := s.l.referenced - Elements(ring[..i]))), pred, i);
    } else {
      var c := s.(l := s.l.(referenced := s.l.referenced - Elements(ring)));
      RefsIrrelevant(s, s.l.referenced - Elements(ring));
      var j := FirstHit(SecondLap(s.l), {}, pred, 0);
      if j < |SecondLap(s.l)| { SettleKeeps(c, pred, j); }
    }
  }

  lemma InvStep(s: Sys, e: Event)
    requires Inv(s) && Legal(s, e)
    ensures Inv(Step(s, e))
  {
    hide IterOk, EvictSpec, Remove, Advance, NoDup;
    match e
    case InsertEv(x) =>
      forall i | i in s.l.iters
        ensures IterOk(s.l.ring + [x], s.l.iters[i], s.owed[i])
      {
        InsertIter(s.l.ring, s.l.iters[i], s.owed[i], x);
      }
      PushNoDup(s.l.ring, x);
    case ReferenceEv(x) =>
    case RemoveEv(x) => RemoveKeeps(s, x);
    case EvictEv(pred) => EvictKeeps(s, pred);
    case BeginEv(i) => BeginOk(s.l.ring);
    case TestEv(i) => AdvanceIter(s.l.ring, s.l.iters[i], s.owed[i]);
    case EndEv(i) =>
  }

  lemma BeginOk(s: seq<Id>)
    requires NoDup(s)
    ensures IterOk(s, Begin(List(s, {}, map[]), 0).iters[0], Elements(s))
  {
    if s != [] { BeginIter(s); }
  }

  ghost predicate Reaches(s: Sys, es: seq<Event>, r: Sys)
    decreases |es|, 1
  {
    if es == [] then r == s else Goes(s, es, r)
  }

  /** The first event can happen, and the others go on from it. */
  ghost predicate Goes(s: Sys, es: seq<Event>, r: Sys)
    requires es != []
    decreases |es|, 0
  {
    Legal(s, es[0]) && Reaches(Step(s, es[0]), es[1..], r)
  }

  const INITIAL := Sys(List([], {}, map[]), map[])

  lemma {:induction false} InvRun(s: Sys, es: seq<Event>, r: Sys)
    requires Inv(s) && Reaches(s, es, r)
    ensures Inv(r)
    decreases |es|
  {
    hide Inv, Step, Legal;
    if es != [] {
      assert Goes(s, es, r);
      InvStep(s, es[0]);
      InvRun(Step(s, es[0]), es[1..], r);
    }
  }

  /** In every run an iterator's pointers are null or on the ring, and once it has reached its
      end every entry that stayed on the ring since it began has been tested. */
  lemma IteratorNeverMisses(es: seq<Event>, r: Sys, i: ItId)
    requires Reaches(INITIAL, es, r) && i in r.l.iters
    ensures r.l.iters[i].e.Some? ==> r.l.iters[i].e.value in r.l.ring
    ensures r.l.iters[i].stop.Some? ==> r.l.iters[i].stop.value in r.l.ring
    ensures i in r.owed && (r.l.iters[i].e.None? ==> r.owed[i] == {})
  {
    InvRun(INITIAL, es, r);
    if r.l.iters[i].e.None? { NothingOwed(r.l.ring, r.l.iters[i], r.owed[i]); }
  }
}
