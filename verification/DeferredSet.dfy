/** The deferred set of md/dm-bio-prison-v1.c: a ring of 64 reference counts through which
    work waits for every earlier reader to finish. */
module DeferredSet {
  import opened Collections

  const SIZE := 64

  type Work = nat
  type Token = nat

  /** struct dm_deferred_set, its entries split into counts and work lists. */
  datatype Slots = Slots(current: nat, sweeper: nat, count: seq<nat>, work: seq<seq<Work>>)

  predicate Shape(ds: Slots) {
    ds.current < SIZE && ds.sweeper < SIZE && |ds.count| == SIZE && |ds.work| == SIZE
  }

  function Next(i: nat): nat { (i + 1) % SIZE }

  const EMPTY := Slots(0, 0, seq(SIZE, i => 0), seq(SIZE, i => []))

  /* ---------- the operations ---------- */

  function Inc(ds: Slots): (r: Slots)
    requires Shape(ds)
    ensures Shape(r)
  {
    ds.(count := ds.count[ds.current := ds.count[ds.current] + 1])
  }

  /** Splices the work of the sweeper's slot in front of head. */
  function Splice(ds: Slots, head: seq<Work>): (r: (Slots, seq<Work>))
    requires Shape(ds)
    ensures Shape(r.0)
  {
    (ds.(work := ds.work[ds.sweeper := []]), ds.work[ds.sweeper] + head)
  }

  /** How far the sweeper is behind. */
  function Gap(ds: Slots): (n: nat)
    requires Shape(ds)
  {
    if ds.sweeper <= ds.current then ds.current - ds.sweeper else ds.current + SIZE - ds.sweeper
  }

  /** The loop of __sweep. */
  function SweepLoop(ds: Slots, head: seq<Work>): (r: (Slots, seq<Work>))
    requires Shape(ds)
    ensures Shape(r.0)
    decreases Gap(ds)
  {
    if ds.sweeper != ds.current && ds.count[ds.sweeper] == 0 then
      var (d, h) := Splice(ds, head);
      SweepLoop(d.(sweeper := Next(d.sweeper)), h)
    else (ds, head)
  }

  function Sweep(ds: Slots, head: seq<Work>): (r: (Slots, seq<Work>))
    requires Shape(ds)
    ensures Shape(r.0)
  {
    var (d, h) := SweepLoop(ds, head);
    if d.sweeper == d.current && d.count[d.sweeper] == 0 then Splice(d, h) else (d, h)
  }

  lemma SweepOnce(ds: Slots, head: seq<Work>)
    requires Shape(ds) && ds.sweeper != ds.current && ds.count[ds.sweeper] == 0
    ensures var d := ds.(work := ds.work[ds.sweeper := []], sweeper := Next(ds.sweeper));
            Shape(d) && Gap(d) < Gap(ds) && SweepLoop(ds, head) == SweepLoop(d, ds.work[ds.sweeper] + head)
  {}

  lemma SweepDone(ds: Slots, head: seq<Work>)
    requires Shape(ds) && !(ds.sweeper != ds.current && ds.count[ds.sweeper] == 0)
    ensures SweepLoop(ds, head) == (ds, head)
  {}

  function Dec(ds: Slots, slot: nat, head: seq<Work>): (r: (Slots, seq<Work>))
    requires Shape(ds) && slot < SIZE && ds.count[slot] > 0
    ensures Shape(r.0)
  {
    Sweep(ds.(count := ds.count[slot := ds.count[slot] - 1]), head)
  }

  /** No entry can be outstanding: the test that lets work run at once. */
  predicate Idle(ds: Slots)
    requires Shape(ds)
  {
    ds.sweeper == ds.current && ds.count[ds.current] == 0
  }

  /** The new set and 1 if the work was deferred, 0 if nothing is pending. */
  function AddWork(ds: Slots, w: Work): (r: (Slots, int))
    requires Shape(ds)
    ensures Shape(r.0)
  {
    if Idle(ds) then (ds, 0)
    else
      var d := ds.(work := ds.work[ds.current := [w] + ds.work[ds.current]]);
      (if d.count[Next(d.current)] == 0 then d.(current := Next(d.current)) else d, 1)
  }

  /** The set as the source keeps it. */
  class DmDeferredSet {
    var current: nat
    var sweeper: nat
    var count: seq<nat>
    var work: seq<seq<Work>>

    function State(): Slots
      reads this
    {
      Slots(current, sweeper, count, work)
    }

    constructor ()
      ensures State() == EMPTY
    {
      current, sweeper := 0, 0;
      count, work := seq(SIZE, i => 0), seq(SIZE, i => []);
    }

    /** dm_deferred_entry_inc: the slot stands for the returned entry. */
    method EntryInc() returns (slot: nat)
      requires Shape(State())
      modifies this
      ensures State() == Inc(old(State())) && slot == old(current)
    {
      slot := current;
      count := count[slot := count[slot] + 1];
    }

    /** __sweep. */
    method DoSweep(head: seq<Work>) returns (out: seq<Work>)
      requires Shape(State())
      modifies this
      ensures (State(), out) == Sweep(old(State()), head)
    {
      hide SweepLoop, Next, Gap;
      out := head;
      while sweeper != current && count[sweeper] == 0
        invariant Shape(State())
        invariant SweepLoop(State(), out) == SweepLoop(old(State()), head)
        decreases Gap(State())
      {
        SweepOnce(State(), out);
        out := work[sweeper] + out;
        work := work[sweeper := []];
        sweeper := Next(sweeper);
      }
      SweepDone(State(), out);
      if sweeper == current && count[sweeper] == 0 {
        out := work[sweeper] + out;
        work := work[sweeper := []];
      }
    }

    /** dm_deferred_entry_dec. */
    method EntryDec(slot: nat, head: seq<Work>) returns (out: seq<Work>)
      requires Shape(State()) && slot < SIZE && count[slot] > 0
      modifies this
      ensures (State(), out) == Dec(old(State()), slot, head)
    {
      count := count[slot := count[slot] - 1];
      out := DoSweep(head);
    }

    /** dm_deferred_set_add_work. */
    method SetAddWork(w: Work) returns (r: int)
      requires Shape(State())
      modifies this
      ensures (State(), r) == AddWork(old(State()), w)
    {
      r := 1;
      if sweeper == current && count[current] == 0 {
        r := 0;
      } else {
        work := work[current := [w] + work[current]];
        var nextEntry := Next(current);
        if count[nextEntry] == 0 {
          current := nextEntry;
        }
      }
    }
  }

  /* ---------- runs, with their history ---------- */

  /** What the ring does not record. Slots are numbered without wrap-around: base is where the
      sweeper is, top where new entries go, and slot a of this numbering is entry a % SIZE.
      live maps each outstanding entry to its slot; waits maps each work item in the ring to the
      entries that were outstanding when it was added, and crowded are the items that found the
      slot after current still in use. deferred lists the additions, released what came out, each
      with the entries it had to wait for. An item that has come out may be added again. */
  datatype History = History(base: nat, top: nat, live: map<Token, nat>, issued: nat, waits: map<Work, set<Token>>,
                             crowded: set<Work>, deferred: seq<Work>, released: seq<Release>)

  datatype Release = Release(w: Work, waited: set<Token>)

  datatype Sys = Sys(ds: Slots, h: History)

  const INITIAL := Sys(EMPTY, History(0, 0, map[], 0, map[], {}, [], []))

  datatype Event = EntryInc | EntryDec(t: Token) | AddItem(w: Work)

  /** The callers' side: an entry is dropped at most once, an item is not added while it is in
      the ring. */
  predicate Legal(s: Sys, e: Event) {
    match e
    case EntryInc => true
    case EntryDec(t) => t in s.h.live
    case AddItem(w) => w !in s.h.waits
  }

  /** How many slots the sweep loop passes. */
  function SweepSteps(ds: Slots): (n: nat)
    requires Shape(ds)
    decreases Gap(ds)
  {
    if ds.sweeper != ds.current && ds.count[ds.sweeper] == 0 then
      1 + SweepSteps(ds.(work := ds.work[ds.sweeper := []], sweeper := Next(ds.sweeper)))
    else 0
  }

  ghost predicate CanStep(s: Sys, e: Event) {
    && Shape(s.ds) && Legal(s, e)
    && (e.EntryDec? ==> s.ds.count[Slot(s.h.live[e.t])] > 0)
  }

  ghost function Step(s: Sys, e: Event): (r: Sys)
    requires CanStep(s, e)
  {
    var ds, h := s.ds, s.h;
    match e
    case EntryInc =>
      Sys(Inc(ds), h.(live := h.live[h.issued := h.top], issued := h.issued + 1))
    case EntryDec(t) =>
      var slot := Slot(h.live[t]);
      var (d, out) := Dec(ds, slot, []);
      var n := SweepSteps(ds.(count := ds.count[slot := ds.count[slot] - 1]));
      Sys(d, Released(h.(base := h.base + n, live := h.live - {t}), out))
    case AddItem(w) =>
      var (d, r) := AddWork(ds, w);
      if r == 0 then Sys(d, h)
      else Sys(d, h.(top := if d.current == ds.current then h.top else h.top + 1, waits := h.waits[w := h.live.Keys],
                     crowded := if ds.count[Next(ds.current)] == 0 then h.crowded else h.crowded + {w}, deferred := h.deferred + [w]))
  }

  /** The items of out have left the ring. */
  ghost function Released(h: History, out: seq<Work>): (r: History) {
    h.(waits := h.waits - Elements(out), crowded := h.crowded - Elements(out),
       released := h.released + seq(|out|, i requires 0 <= i < |out| => Release(out[i], if out[i] in h.waits then h.waits[out[i]] else {})))
  }

  ghost function Works(rs: seq<Release>): (s: seq<Work>)
    ensures |s| == |rs|
  {
    seq(|rs|, i requires 0 <= i < |rs| => rs[i].w)
  }

  /* ---------- the invariant ---------- */

  /** The entry that slot a of the unwrapped numbering stands for. */
  function Slot(a: nat): (i: nat)
    ensures i < SIZE
  {
    a % SIZE
  }

  lemma SlotSteps(a: nat)
    ensures Next(Slot(a)) == Slot(a + 1) && Slot(a + SIZE) == Slot(a)
  {}

  ghost function Holders(live: map<Token, nat>, a: nat): (s: set<Token>) { set t | t in live && live[t] == a }

  /** Everything deferred in the first n slots. */
  ghost function Pending(work: seq<seq<Work>>, n: nat): (m: multiset<Work>)
    requires n <= |work|
  {
    if n == 0 then multiset{} else Pending(work, n - 1) + multiset(work[n - 1])
  }

  /** No entry that w waits for is outstanding beyond slot a. */
  ghost predicate WaitsUpTo(h: History, w: Work, a: nat) {
    w in h.waits && forall t :: t in h.waits[w] && t in h.live ==> h.live[t] <= a
  }

  /** Slot a counts its outstanding entries; its work waits for nothing beyond it; past top
      it has no work. */
  ghost predicate SlotOk(ds: Slots, h: History, a: nat)
    requires Shape(ds)
  {
    && ds.count[Slot(a)] == |Holders(h.live, a)|
    && (forall w :: w in ds.work[Slot(a)] ==> WaitsUpTo(h, w, a))
    && (a > h.top ==> ds.work[Slot(a)] == [])
  }

  /** The window from sweeper to current, never lapping, holds all outstanding entries. */
  ghost predicate Window(ds: Slots, h: History) {
    && Shape(ds)
    && h.base <= h.top < h.base + SIZE && ds.sweeper == Slot(h.base) && ds.current == Slot(h.top)
    && (forall t :: t in h.live ==> h.base <= h.live[t] <= h.top)
    && (forall a :: h.base <= a < h.base + SIZE ==> SlotOk(ds, h, a))
  }

  ghost predicate Tokens(h: History) {
    && (forall t :: t in h.live ==> t < h.issued)
    && (forall w :: w in h.waits ==> forall t :: t in h.waits[w] ==> t < h.issued)
    && (forall i :: 0 <= i < |h.released| ==> forall t :: t in h.released[i].waited ==> t < h.issued)
  }

  /** Released work waits for nothing any more. */
  ghost predicate GraceKept(h: History) {
    forall i :: 0 <= i < |h.released| ==> h.released[i].waited !! h.live.Keys
  }

  /** The ring holds each waiting item once, and every addition is there or has come out. */
  ghost predicate Conserved(work: seq<seq<Work>>, h: History)
    requires |work| == SIZE
  {
    && Pending(work, SIZE) == multiset(h.waits.Keys)
    && multiset(h.deferred) == Pending(work, SIZE) + multiset(Works(h.released))
  }

  ghost predicate Inv(s: Sys) {
    && Window(s.ds, s.h) && Tokens(s.h) && GraceKept(s.h)
    && Conserved(s.ds.work, s.h)
    && (s.h.base < s.h.top ==> s.ds.count[s.ds.sweeper] > 0)
    && (Idle(s.ds) ==> s.ds.work[s.ds.current] == [])
  }

  lemma {:induction false} PendingSame(work: seq<seq<Work>>, work': seq<seq<Work>>, n: nat)
    requires n <= |work| && n <= |work'| && forall i :: 0 <= i < n ==> work[i] == work'[i]
    ensures Pending(work, n) == Pending(work', n)
  {
    if n > 0 { PendingSame(work, work', n - 1); }
  }

  lemma {:induction false} PendingUpdate(work: seq<seq<Work>>, i: nat, x: seq<Work>, n: nat)
    requires i < n <= |work|
    ensures Pending(work[i := x], n) + multiset(work[i]) == Pending(work, n) + multiset(x)
  {
    if i == n - 1 {
      PendingSame(work, work[i := x], n - 1);
    } else {
      PendingUpdate(work, i, x, n - 1);
      var last := multiset(work[n - 1]);
      assert work[i := x][n - 1] == work[n - 1];
      Reorder(Pending(work[i := x], n - 1), last, multiset(work[i]));
      Reorder(Pending(work, n - 1), last, multiset(x));
    }
  }

  lemma CancelRight(a: multiset<Work>, b: multiset<Work>, c: multiset<Work>)
    requires a + c == b + c
    ensures a == b
  {
    forall x
      ensures a[x] == b[x]
    {
      assert (a + c)[x] == (b + c)[x];
    }
  }

  lemma Reorder(a: multiset<Work>, b: multiset<Work>, c: multiset<Work>)
    ensures a + b + c == a + c + b
  {}

  lemma {:induction false} PendingEmpty(work: seq<seq<Work>>, n: nat)
    requires n <= |work|
    ensures (forall i :: 0 <= i < n ==> work[i] == []) <==> Pending(work, n) == multiset{}
  {
    if n > 0 {
      PendingEmpty(work, n - 1);
      assert Pending(work, n) == multiset{} ==> |Pending(work, n)| == 0 && |work[n - 1]| == 0;
    }
  }

  /** Slots of one window are different entries. */
  lemma SlotsApart(a: nat, b: nat)
    requires a < b < a + SIZE
    ensures Slot(a) != Slot(b)
  {
    assert b == a + (b - a);
  }

  /* ---------- sweeping ---------- */

  /** The work of a slot that nothing at or before can still hold up is ripe. */
  lemma SlotRipe(ds: Slots, h: History)
    requires Window(ds, h) && ds.count[ds.sweeper] == 0
    ensures forall t :: t in h.live ==> h.base < h.live[t]
    ensures forall w :: w in ds.work[ds.sweeper] ==> w in h.waits && h.waits[w] !! h.live.Keys
  {
    hide Slot;
    assert SlotOk(ds, h, h.base);
    assert Holders(h.live, h.base) == {};
    forall t | t in h.live
      ensures h.base < h.live[t]
    {
      assert t !in Holders(h.live, h.base);
    }
    forall w | w in ds.work[ds.sweeper]
      ensures w in h.waits && h.waits[w] !! h.live.Keys
    {
      assert WaitsUpTo(h, w, h.base);
    }
  }

  /** Passing one slot with no outstanding entries. */
  lemma PassSlot(ds: Slots, h: History)
    requires Window(ds, h) && h.base < h.top && ds.count[ds.sweeper] == 0
    ensures Window(ds.(work := ds.work[ds.sweeper := []], sweeper := Next(ds.sweeper)), h.(base := h.base + 1))
  {
    hide Slot, Next;
    var d, g := ds.(work := ds.work[ds.sweeper := []], sweeper := Next(ds.sweeper)), h.(base := h.base + 1);
    SlotSteps(h.base);
    SlotRipe(ds, h);
    forall a | g.base <= a < g.base + SIZE
      ensures SlotOk(d, g, a)
    {
      if a < h.base + SIZE {
        SlotsApart(h.base, a);
        SlotKept(ds, d, h, g, a);
      } else {
        assert SlotOk(ds, h, h.base);
        assert Holders(g.live, a) == {};
      }
    }
  }

  /** A slot whose count and work are untouched stays as it should. */
  lemma SlotKept(ds: Slots, d: Slots, h: History, g: History, a: nat)
    requires Shape(ds) && Shape(d) && SlotOk(ds, h, a)
    requires ds.count[Slot(a)] == d.count[Slot(a)] && ds.work[Slot(a)] == d.work[Slot(a)]
    requires g.live == h.live && g.waits == h.waits && h.top <= g.top
    ensures SlotOk(d, g, a)
  {
    hide Slot;
    forall w | w in d.work[Slot(a)]
      ensures WaitsUpTo(g, w, a)
    {
      assert WaitsUpTo(h, w, a);
    }
  }

  /** The whole loop: the window is kept, the sweeper stops at current or at an outstanding
      entry, and every item it releases is ripe. */
  lemma {:induction false} SweepLoopKeeps(ds: Slots, head: seq<Work>, h: History)
    requires Window(ds, h)
    requires forall w :: w in head ==> w in h.waits && h.waits[w] !! h.live.Keys
    ensures var (d, out) := SweepLoop(ds, head);
            var g := h.(base := h.base + SweepSteps(ds));
            && Window(d, g) && (g.base < g.top ==> d.count[d.sweeper] > 0)
            && Pending(d.work, SIZE) + multiset(out) == Pending(ds.work, SIZE) + multiset(head)
            && (forall w :: w in out ==> w in h.waits && h.waits[w] !! h.live.Keys)
    decreases Gap(ds)
  {
    hide Window, Pending, Slot, Next, Gap, SweepLoop, SweepSteps;
    WindowProper(ds, h);
    StepsOnce(ds);
    if ds.sweeper == ds.current || ds.count[ds.sweeper] > 0 {
      SweepDone(ds, head);
    } else {
      SweepOnce(ds, head);
      var (d, o) := Splice(ds, head);
      var d' := d.(sweeper := Next(d.sweeper));
      PassSlot(ds, h);
      SlotRipe(ds, h);
      PendingUpdate(ds.work, ds.sweeper, [], SIZE);
      assert multiset(o) == multiset(ds.work[ds.sweeper]) + multiset(head);
      assert Pending(d.work, SIZE) + multiset(o) == Pending(d.work, SIZE) + multiset(ds.work[ds.sweeper]) + multiset(head);
      SweepLoopKeeps(d', o, h.(base := h.base + 1));
    }
  }

  lemma StepsOnce(ds: Slots)
    requires Shape(ds)
    ensures ds.sweeper == ds.current || ds.count[ds.sweeper] > 0 ==> SweepSteps(ds) == 0
    ensures ds.sweeper != ds.current && ds.count[ds.sweeper] == 0 ==>
              var d := ds.(work := ds.work[ds.sweeper := []], sweeper := Next(ds.sweeper));
              Shape(d) && SweepSteps(ds) == 1 + SweepSteps(d)
  {}

  lemma WindowProper(ds: Slots, h: History)
    requires Window(ds, h)
    ensures Shape(ds) && h.base <= h.top && (h.base == h.top <==> ds.sweeper == ds.current)
  {
    if h.base < h.top { SlotsApart(h.base, h.top); }
  }

  /** Emptying the sweeper's slot in place keeps the window. */
  lemma EmptySlot(ds: Slots, h: History)
    requires Window(ds, h)
    ensures Window(ds.(work := ds.work[ds.sweeper := []]), h)
  {
    hide Slot;
    var d := ds.(work := ds.work[ds.sweeper := []]);
    forall a | h.base <= a < h.base + SIZE
      ensures SlotOk(d, h, a)
    {
      assert SlotOk(ds, h, a);
      if a > h.base {
        SlotsApart(h.base, a);
        SlotKept(ds, d, h, h, a);
      }
    }
  }

  lemma SweepKeeps(ds: Slots, h: History)
    requires Window(ds, h)
    ensures var (d, out) := Sweep(ds, []);
            var g := h.(base := h.base + SweepSteps(ds));
            && Window(d, g) && (g.base < g.top ==> d.count[d.sweeper] > 0)
            && (Idle(d) ==> d.work[d.current] == [])
            && Pending(d.work, SIZE) + multiset(out) == Pending(ds.work, SIZE)
            && (forall w :: w in out ==> w in h.waits && h.waits[w] !! h.live.Keys)
  {
    hide Window, Pending, Slot, SweepLoop, SweepSteps;
    assert Shape(ds) by { WindowProper(ds, h); }
    SweepLoopKeeps(ds, [], h);
    var (d, out) := SweepLoop(ds, []);
    var g := h.(base := h.base + SweepSteps(ds));
    WindowProper(d, g);
    var none: seq<Work> := [];
    assert multiset(none) == multiset{};
    if Idle(d) {
      SlotRipe(d, g);
      EmptySlot(d, g);
      PendingUpdate(d.work, d.sweeper, [], SIZE);
      var ripe := d.work[d.sweeper];
      assert multiset(ripe + out) == multiset(ripe) + multiset(out);
      var p := Pending(d.work[d.sweeper := []], SIZE);
      assert p + multiset(ripe) == Pending(d.work, SIZE);
      assert p + multiset(ripe + out) == p + multiset(ripe) + multiset(out);
    }
  }

  /* ---------- each step keeps the invariant ---------- */

  lemma HoldersUpdate(live: map<Token, nat>, t: Token, a: nat)
    ensures t !in live ==> |Holders(live[t := a], a)| == |Holders(live, a)| + 1
    ensures t in live && live[t] == a ==> |Holders(live - {t}, a)| == |Holders(live, a)| - 1
  {
    if t !in live {
      assert Holders(live[t := a], a) == Holders(live, a) + {t};
    } else if live[t] == a {
      assert Holders(live - {t}, a) == Holders(live, a) - {t};
    }
  }

  lemma HoldersOther(live: map<Token, nat>, t: Token, a: nat, b: nat)
    requires a != b
    ensures t !in live ==> Holders(live[t := b], a) == Holders(live, a)
    ensures t in live && live[t] == b ==> Holders(live - {t}, a) == Holders(live, a)
  {}

  lemma IncKeeps(s: Sys)
    requires Inv(s)
    ensures CanStep(s, EntryInc) && Inv(Step(s, EntryInc))
  {
    hide Slot, Pending;
    var r := Step(s, EntryInc);
    var h, g := s.h, r.h;
    WindowProper(s.ds, h);
    forall a | g.base <= a < g.base + SIZE
      ensures SlotOk(r.ds, g, a)
    {
      assert SlotOk(s.ds, h, a);
      HoldersUpdate(h.live, h.issued, h.top);
      if a != h.top {
        HoldersOther(h.live, h.issued, a, h.top);
        if a < h.top { SlotsApart(a, h.top); } else { SlotsApart(h.top, a); }
      }
      forall w | w in r.ds.work[Slot(a)]
        ensures WaitsUpTo(g, w, a)
      {
        assert WaitsUpTo(h, w, a);
      }
    }
  }

  /** Dropping one entry, before the sweep. */
  lemma DropKeeps(ds: Slots, h: History, t: Token)
    requires Window(ds, h) && t in h.live
    ensures ds.count[Slot(h.live[t])] > 0
    ensures Window(ds.(count := ds.count[Slot(h.live[t]) := ds.count[Slot(h.live[t])] - 1]), h.(live := h.live - {t}))
  {
    hide Slot;
    var b := h.live[t];
    assert SlotOk(ds, h, b);
    assert t in Holders(h.live, b);
    HoldersUpdate(h.live, t, b);
    var d, g := ds.(count := ds.count[Slot(b) := ds.count[Slot(b)] - 1]), h.(live := h.live - {t});
    forall a | g.base <= a < g.base + SIZE
      ensures SlotOk(d, g, a)
    {
      assert SlotOk(ds, h, a);
      if a != b {
        HoldersOther(h.live, t, a, b);
        if a < b { SlotsApart(a, b); } else { SlotsApart(b, a); }
      }
      forall w | w in d.work[Slot(a)]
        ensures WaitsUpTo(g, w, a)
      {
        assert WaitsUpTo(h, w, a);
      }
    }
  }

  lemma DecKeeps(s: Sys, t: Token)
    requires Inv(s) && t in s.h.live
    ensures CanStep(s, EntryDec(t)) && Inv(Step(s, EntryDec(t)))
  {
    hide Slot, Pending, Window, Sweep, SweepSteps, Conserved, Tokens, GraceKept, Released;
    assert Shape(s.ds) by { WindowProper(s.ds, s.h); }
    var h, b := s.h, Slot(s.h.live[t]);
    DropKeeps(s.ds, h, t);
    var d, g := s.ds.(count := s.ds.count[b := s.ds.count[b] - 1]), h.(live := h.live - {t});
    SweepKeeps(d, g);
    var (d', out) := Sweep(d, []);
    var g' := g.(base := g.base + SweepSteps(d));
    Shaped(d', g');
    ConservedSame(s.ds.work, h, g');
    Leaves(d'.work, g', s.ds.work, out);
    WindowPruned(d', g', out);
    ReleasedRipe(h, g', out);
    ReleasedSame(g', out);
  }

  lemma ConservedSame(work: seq<seq<Work>>, h: History, g: History)
    requires |work| == SIZE && Conserved(work, h) && g.waits == h.waits && g.deferred == h.deferred && g.released == h.released
    ensures Conserved(work, g)
  {
    hide Pending;
  }

  lemma ReleasedSame(h: History, out: seq<Work>)
    ensures Released(h, out).base == h.base && Released(h, out).top == h.top
  {}

  /** Ripe items come out: the grace period is kept. */
  lemma ReleasedRipe(h: History, g: History, out: seq<Work>)
    requires Tokens(h) && GraceKept(h) && g.waits == h.waits && g.released == h.released && g.issued == h.issued
    requires g.live.Keys <= h.live.Keys && forall w :: w in out ==> w in g.waits && g.waits[w] !! g.live.Keys
    ensures Tokens(Released(g, out)) && GraceKept(Released(g, out))
  {
    var r := Released(g, out);
    forall i | 0 <= i < |r.released|
      ensures r.released[i].waited !! r.live.Keys && forall t :: t in r.released[i].waited ==> t < r.issued
    {
      if i < |h.released| {
        assert r.released[i] == h.released[i];
      } else {
        assert r.released[i] == Release(out[i - |h.released|], g.waits[out[i - |h.released|]]);
      }
    }
  }

  lemma Shaped(ds: Slots, h: History)
    requires Window(ds, h)
    ensures Shape(ds)
  {}

  lemma {:induction false} PendingHas(work: seq<seq<Work>>, n: nat, i: nat, w: Work)
    requires i < n <= |work| && w in work[i]
    ensures Pending(work, n)[w] > 0
  {
    if i < n - 1 { PendingHas(work, n - 1, i, w); }
  }

  /** If each item is in the ring once, what comes out is no longer there. */
  lemma ComesOut(p: multiset<Work>, q: multiset<Work>, keys: set<Work>, out: seq<Work>)
    requires q + multiset(out) == p && p == multiset(keys)
    ensures q == multiset(keys - Elements(out)) && forall w :: w in out ==> q[w] == 0
  {
    forall w
      ensures q[w] == multiset(keys - Elements(out))[w] && (w in out ==> q[w] == 0)
    {
      assert (q + multiset(out))[w] == multiset(keys)[w];
      assert w in out <==> multiset(out)[w] > 0;
    }
  }

  lemma WorksOf(h: History, out: seq<Work>)
    ensures multiset(Works(Released(h, out).released)) == multiset(Works(h.released)) + multiset(out)
  {
    assert Works(Released(h, out).released) == Works(h.released) + out;
  }

  /** What comes out is accounted for, and no longer in the ring. */
  lemma Leaves(work': seq<seq<Work>>, h: History, work: seq<seq<Work>>, out: seq<Work>)
    requires |work| == |work'| == SIZE && Conserved(work, h) && Pending(work', SIZE) + multiset(out) == Pending(work, SIZE)
    ensures Conserved(work', Released(h, out))
    ensures forall i, w :: 0 <= i < SIZE && w in work'[i] ==> w !in out
  {
    hide Pending, Works;
    ComesOut(Pending(work, SIZE), Pending(work', SIZE), h.waits.Keys, out);
    WorksOf(h, out);
    assert Released(h, out).waits.Keys == h.waits.Keys - Elements(out);
    Reorder(Pending(work', SIZE), multiset(out), multiset(Works(h.released)));
    forall i, w | 0 <= i < SIZE && w in work'[i]
      ensures w !in out
    {
      PendingHas(work', SIZE, i, w);
    }
  }

  /** The window does not see that items have left, if they have. */
  lemma WindowPruned(ds: Slots, h: History, out: seq<Work>)
    requires Window(ds, h) && forall i, w :: 0 <= i < SIZE && w in ds.work[i] ==> w !in out
    ensures Window(ds, Released(h, out))
  {
    hide Slot;
    var g := Released(h, out);
    forall a | g.base <= a < g.base + SIZE
      ensures SlotOk(ds, g, a)
    {
      assert SlotOk(ds, h, a);
      forall w | w in ds.work[Slot(a)]
        ensures WaitsUpTo(g, w, a)
      {
        assert WaitsUpTo(h, w, a);
      }
    }
  }

  lemma AddKeeps(s: Sys, w: Work)
    requires Inv(s) && w !in s.h.waits
    ensures CanStep(s, AddItem(w)) && Inv(Step(s, AddItem(w)))
  {
    hide Slot, Pending, Next;
    var r := Step(s, AddItem(w));
    var ds, h, g := s.ds, s.h, r.h;
    if !Idle(ds) {
      WindowProper(ds, h);
      SlotSteps(h.top);
      SlotsApart(h.top, h.top + 1);
      if h.top + 1 == h.base + SIZE { SlotSteps(h.base); }
      forall a | g.base <= a < g.base + SIZE
        ensures SlotOk(r.ds, g, a)
      {
        AddSlot(ds, h, w, r.ds, g, a);
      }
      PendingUpdate(ds.work, ds.current, [w] + ds.work[ds.current], SIZE);
      AddConserves(ds, h, w, g, r.ds.work);
    }
  }

  lemma AddSlot(ds: Slots, h: History, w: Work, d: Slots, g: History, a: nat)
    requires Window(ds, h) && h.base <= a < h.base + SIZE && Shape(d) && w !in h.waits
    requires d.count == ds.count && d.work == ds.work[ds.current := [w] + ds.work[ds.current]]
    requires g.live == h.live && g.waits == h.waits[w := h.live.Keys] && h.top <= g.top <= h.top + 1
    ensures SlotOk(d, g, a)
  {
    hide Slot;
    assert SlotOk(ds, h, a);
    if a < h.top { SlotsApart(a, h.top); } else if h.top < a { SlotsApart(h.top, a); }
    forall x | x in d.work[Slot(a)]
      ensures WaitsUpTo(g, x, a)
    {
      if x != w || a != h.top {
        assert x in ds.work[Slot(a)];
        assert WaitsUpTo(h, x, a);
      }
    }
  }

  lemma AddConserves(ds: Slots, h: History, w: Work, g: History, work': seq<seq<Work>>)
    requires Shape(ds) && w !in h.waits && work' == ds.work[ds.current := [w] + ds.work[ds.current]] && Conserved(ds.work, h)
    requires g.waits == h.waits[w := h.live.Keys] && g.deferred == h.deferred + [w] && g.released == h.released
    ensures Conserved(work', g)
  {
    hide Pending;
    var c := ds.work[ds.current];
    PendingUpdate(ds.work, ds.current, [w] + c, SIZE);
    assert multiset([w] + c) == multiset{w} + multiset(c);
    var p, p' := Pending(ds.work, SIZE), Pending(work', SIZE);
    assert p' + multiset(c) == p + multiset{w} + multiset(c);
    CancelRight(p', p + multiset{w}, multiset(c));
    assert g.waits.Keys == h.waits.Keys + {w};
    assert multiset(h.waits.Keys + {w}) == multiset(h.waits.Keys) + multiset{w};
    Reorder(p, multiset{w}, multiset(Works(h.released)));
  }

  /* ---------- every run ---------- */

  /** The state after the events, if each was legal when it happened. */
  ghost predicate Reaches(s: Sys, es: seq<Event>, r: Sys)
    decreases |es|, 1
  {
    if es == [] then r == s else Goes(s, es, r)
  }

  /** The first event can happen, and the others go on from it. */
  ghost predicate Goes(s: Sys, es: seq<Event>, r: Sys)
    requires es != []
    decreases |es|, 0
  {
    CanStep(s, es[0]) && Reaches(Step(s, es[0]), es[1..], r)
  }

  lemma InvStep(s: Sys, e: Event)
    requires Inv(s) && Legal(s, e)
    ensures CanStep(s, e) && Inv(Step(s, e))
  {
    hide Inv, CanStep, Step;
    match e
    case EntryInc => IncKeeps(s);
    case EntryDec(t) => DecKeeps(s, t);
    case AddItem(w) => AddKeeps(s, w);
  }

  lemma InvInitial()
    ensures Inv(INITIAL)
  {
    hide Pending;
    forall a | 0 <= a < SIZE
      ensures SlotOk(EMPTY, INITIAL.h, a)
    {
      assert Holders(map[], a) == {};
    }
    PendingEmpty(EMPTY.work, SIZE);
    assert multiset(INITIAL.h.waits.Keys) == multiset{};
  }

  lemma {:induction false} InvRun(s: Sys, es: seq<Event>, r: Sys)
    requires Inv(s) && Reaches(s, es, r)
    ensures Inv(r)
    decreases |es|
  {
    hide Inv, Step;
    if es != [] {
      assert Goes(s, es, r);
      InvStep(s, es[0]);
      InvRun(Step(s, es[0]), es[1..], r);
    }
  }

  /** Grace period: in every run, no entry that released work had to wait for is outstanding, so
      every entry taken before the work was added had been dropped. */
  lemma GracePeriod(es: seq<Event>, r: Sys, i: nat)
    requires Reaches(INITIAL, es, r) && i < |r.h.released|
    ensures r.h.released[i].waited !! r.h.live.Keys
  {
    InvInitial();
    InvRun(INITIAL, es, r);
  }

  /** Work runs at once exactly when no entry is outstanding. */
  lemma ImmediateIffNoneOutstanding(es: seq<Event>, r: Sys, w: Work)
    requires Reaches(INITIAL, es, r)
    ensures Shape(r.ds) && (AddWork(r.ds, w).1 == 0 <==> r.h.live == map[])
  {
    hide Inv;
    InvInitial();
    InvRun(INITIAL, es, r);
    IdleIff(r);
  }

  /** Conservation: every deferral is in exactly one slot, once, or has come out exactly once, and
      the ring holds entries and work only between sweeper and current, which never laps it. */
  lemma Conservation(es: seq<Event>, r: Sys)
    requires Reaches(INITIAL, es, r)
    ensures Window(r.ds, r.h)
    ensures Pending(r.ds.work, SIZE) == multiset(r.h.waits.Keys)
    ensures multiset(r.h.deferred) == Pending(r.ds.work, SIZE) + multiset(Works(r.h.released))
    ensures r.h.live == map[] ==> Pending(r.ds.work, SIZE) == multiset{}
  {
    hide Slot;
    InvInitial();
    InvRun(INITIAL, es, r);
    if r.h.live == map[] {
      forall i | 0 <= i < SIZE
        ensures r.ds.work[i] == []
      {
        NothingLeft(r, i);
      }
      PendingEmpty(r.ds.work, SIZE);
    }
  }

  lemma NothingLeft(s: Sys, i: nat)
    requires Inv(s) && s.h.live == map[] && i < SIZE
    ensures s.ds.work[i] == []
  {
    hide Slot;
    var ds, h := s.ds, s.h;
    WindowProper(ds, h);
    assert SlotOk(ds, h, h.base);
    assert Holders(h.live, h.base) == {};
    var a := SlotOnto(h.base, i);
    assert SlotOk(ds, h, a);
  }

  /** Every entry is a slot of the window's numbering. */
  lemma SlotOnto(base: nat, i: nat) returns (a: nat)
    requires i < SIZE
    ensures base <= a < base + SIZE && Slot(a) == i
  {
    a := base / SIZE * SIZE + i;
    if a < base { a := a + SIZE; }
  }

  /** Outside the window from sweeper to current a slot has neither entries nor work. */
  lemma OutsideWindow(es: seq<Event>, r: Sys, a: nat)
    requires Reaches(INITIAL, es, r) && r.h.top < a < r.h.base + SIZE
    ensures Shape(r.ds) && r.ds.count[Slot(a)] == 0 && r.ds.work[Slot(a)] == []
  {
    hide Slot;
    InvInitial();
    InvRun(INITIAL, es, r);
    PastTop(r.ds, r.h, a);
  }

  lemma PastTop(ds: Slots, h: History, a: nat)
    requires Window(ds, h) && h.top < a < h.base + SIZE
    ensures ds.count[Slot(a)] == 0 && ds.work[Slot(a)] == []
  {
    hide Slot;
    assert SlotOk(ds, h, a);
    assert Holders(h.live, a) == {};
  }

  /** Work is held back no longer than its slot asks: while an item is deferred in a slot, some
      entry at or before that slot is outstanding. */
  lemma StillWaiting(es: seq<Event>, r: Sys, a: nat)
    requires Reaches(INITIAL, es, r) && r.h.base <= a <= r.h.top
    requires Shape(r.ds) && r.ds.work[Slot(a)] != []
    ensures exists t :: t in r.h.live && r.h.live[t] <= a
  {
    hide Slot, Conserved, Tokens, GraceKept;
    InvInitial();
    InvRun(INITIAL, es, r);
    WindowProper(r.ds, r.h);
    assert SlotOk(r.ds, r.h, r.h.base);
    assert Holders(r.h.live, r.h.base) != {};
    var t :| t in Holders(r.h.live, r.h.base);
  }

  /* ---------- nothing taken later holds work back ---------- */

  /** Item w, in slot a, waits for all that is outstanding up to there, and new entries go
      further on. */
  ghost predicate SealedIn(h: History, w: Work, a: nat) {
    a < h.top && w in h.waits && forall t :: t in h.live && h.live[t] <= a ==> t in h.waits[w]
  }

  ghost predicate Sealed(s: Sys) {
    && Shape(s.ds) && s.h.crowded <= s.h.waits.Keys
    && forall a, w :: s.h.base <= a <= s.h.top && w in s.ds.work[Slot(a)] && w !in s.h.crowded ==> SealedIn(s.h, w, a)
  }

  /** A sweep empties slots and fills none; the current one is left alone while it is in use. */
  lemma {:induction false} SweepLoopEmpties(ds: Slots, head: seq<Work>, i: nat)
    requires Shape(ds) && i < SIZE
    ensures var d := SweepLoop(ds, head).0;
            && (d.work[i] == ds.work[i] || d.work[i] == []) && d.work[d.current] == ds.work[ds.current]
            && d.current == ds.current && d.count == ds.count
    decreases Gap(ds)
  {
    hide SweepLoop, Gap, Next;
    if ds.sweeper != ds.current && ds.count[ds.sweeper] == 0 {
      SweepOnce(ds, head);
      SweepLoopEmpties(ds.(work := ds.work[ds.sweeper := []], sweeper := Next(ds.sweeper)), ds.work[ds.sweeper] + head, i);
    } else {
      SweepDone(ds, head);
    }
  }

  lemma SweepEmpties(ds: Slots, head: seq<Work>)
    requires Shape(ds)
    ensures var d := Sweep(ds, head).0;
            && d.current == ds.current && (ds.count[ds.current] > 0 ==> d.work[ds.current] == ds.work[ds.current])
            && forall i :: 0 <= i < SIZE ==> d.work[i] == ds.work[i] || d.work[i] == []
  {
    hide SweepLoop;
    forall i | 0 <= i < SIZE
      ensures Sweep(ds, head).0.work[i] == ds.work[i] || Sweep(ds, head).0.work[i] == []
    {
      SweepLoopEmpties(ds, head, i);
    }
    SweepLoopEmpties(ds, head, 0);
  }

  /** What a drop does to the ring and to the history. */
  lemma DecIs(s: Sys, t: Token)
    requires Inv(s) && t in s.h.live
    ensures CanStep(s, EntryDec(t))
    ensures var r := Step(s, EntryDec(t));
            && Shape(s.ds) && Shape(r.ds) && r.h.base >= s.h.base && r.h.top == s.h.top && r.h.live == s.h.live - {t} && r.h.issued == s.h.issued
            && r.ds.current == s.ds.current && r.h.deferred == s.h.deferred && r.h.crowded <= s.h.crowded
            && (forall i :: 0 <= i < SIZE ==> r.ds.work[i] == s.ds.work[i] || r.ds.work[i] == [])
            && (forall w :: w in r.h.waits ==> w in s.h.waits && r.h.waits[w] == s.h.waits[w])
            && (forall w :: w in r.h.waits ==> (w in r.h.crowded <==> w in s.h.crowded))
            && (s.h.crowded <= s.h.waits.Keys ==> r.h.crowded <= r.h.waits.Keys)
            && (|Holders(s.h.live - {t}, s.h.top)| > 0 ==> r.ds.work[s.ds.current] == s.ds.work[s.ds.current])
  {
    hide Sweep, SweepSteps, Window, Pending, Conserved, Tokens, GraceKept, Slot;
    DecKeeps(s, t);
    WindowProper(s.ds, s.h);
    var b := Slot(s.h.live[t]);
    var d := s.ds.(count := s.ds.count[b := s.ds.count[b] - 1]);
    SweepEmpties(d, []);
    DropKeeps(s.ds, s.h, t);
    TopCount(d, s.h.(live := s.h.live - {t}));
  }

  lemma TopCount(ds: Slots, h: History)
    requires Window(ds, h)
    ensures Shape(ds) && ds.count[ds.current] == |Holders(h.live, h.top)|
  {
    hide Slot;
    assert SlotOk(ds, h, h.top);
  }

  lemma SealedDec(s: Sys, t: Token)
    requires Inv(s) && Sealed(s) && t in s.h.live
    ensures CanStep(s, EntryDec(t)) && Sealed(Step(s, EntryDec(t)))
  {
    hide Inv, Step, CanStep, Slot;
    DecKeeps(s, t);
    DecIs(s, t);
    var r := Step(s, EntryDec(t));
    forall a, w | r.h.base <= a <= r.h.top && w in r.ds.work[Slot(a)] && w !in r.h.crowded
      ensures SealedIn(r.h, w, a)
    {
      InWaits(r, Slot(a), w);
      assert w in s.ds.work[Slot(a)] && w !in s.h.crowded;
      assert SealedIn(s.h, w, a);
    }
  }

  /** What is in the ring waits. */
  lemma InWaits(s: Sys, i: nat, w: Work)
    requires Inv(s) && i < SIZE && w in s.ds.work[i]
    ensures w in s.h.waits
  {
    hide Window, Tokens, GraceKept, Pending;
    assert Shape(s.ds) by { WindowProper(s.ds, s.h); }
    PendingHas(s.ds.work, SIZE, i, w);
  }

  lemma SealedInc(s: Sys)
    requires Inv(s) && Sealed(s)
    ensures CanStep(s, EntryInc) && Sealed(Step(s, EntryInc))
  {
    hide Slot, Conserved, Tokens, GraceKept;
    var r := Step(s, EntryInc);
    forall a, w | r.h.base <= a <= r.h.top && w in r.ds.work[Slot(a)] && w !in r.h.crowded
      ensures SealedIn(r.h, w, a)
    {
      assert SealedIn(s.h, w, a);
    }
  }

  lemma SealedAdd(s: Sys, w: Work)
    requires Inv(s) && Sealed(s) && w !in s.h.waits
    ensures CanStep(s, AddItem(w)) && Sealed(Step(s, AddItem(w)))
  {
    hide Slot, Next, Conserved, Tokens, GraceKept, SlotOk;
    var ds, h, r := s.ds, s.h, Step(s, AddItem(w));
    if !Idle(ds) {
      SlotSteps(h.top);
      SlotsApart(h.top, h.top + 1);
      forall a, x | r.h.base <= a <= r.h.top && x in r.ds.work[Slot(a)] && x !in r.h.crowded
        ensures SealedIn(r.h, x, a)
      {
        if a > h.top {
          NextEmpty(s);
        } else if x == w && a == h.top {
        } else {
          if a < h.top { SlotsApart(a, h.top); }
          assert x in ds.work[Slot(a)];
          assert SealedIn(h, x, a);
        }
      }
    }
  }

  /** If the slot after current is free, it holds no work. */
  lemma NextEmpty(s: Sys)
    requires Inv(s) && s.ds.count[Next(s.ds.current)] == 0
    ensures Next(s.ds.current) == Slot(s.h.top + 1) && s.ds.work[Slot(s.h.top + 1)] == []
  {
    hide Slot, Next, Conserved, Tokens, GraceKept;
    SlotSteps(s.h.top);
    SlotSteps(s.h.base);
    if s.h.top + 1 < s.h.base + SIZE { assert SlotOk(s.ds, s.h, s.h.top + 1); }
  }

  lemma {:induction false} SealedRun(s: Sys, es: seq<Event>, r: Sys)
    requires Inv(s) && Sealed(s) && Reaches(s, es, r)
    ensures Inv(r) && Sealed(r)
    decreases |es|
  {
    hide Inv, Sealed, Step;
    if es != [] {
      assert Goes(s, es, r);
      InvStep(s, es[0]);
      match es[0]
      case EntryInc => SealedInc(s); SealedRun(Step(s, es[0]), es[1..], r);
      case EntryDec(t) => SealedDec(s, t); SealedRun(Step(s, es[0]), es[1..], r);
      case AddItem(w) => SealedAdd(s, w); SealedRun(Step(s, es[0]), es[1..], r);
    }
  }

  lemma {:induction false} PendingIn(work: seq<seq<Work>>, n: nat, w: Work) returns (i: nat)
    requires n <= |work| && Pending(work, n)[w] > 0
    ensures i < n && w in work[i]
  {
    if w in work[n - 1] { i := n - 1; } else { i := PendingIn(work, n - 1, w); }
  }

  /** In every run an item that did not find the ring crowded is held back only by entries taken
      before it: while it waits, one of those is still outstanding. */
  lemma Prompt(es: seq<Event>, r: Sys, w: Work)
    requires Reaches(INITIAL, es, r) && w in r.h.waits && w !in r.h.crowded
    ensures exists t :: t in r.h.waits[w] && t in r.h.live
  {
    hide Slot, Tokens, GraceKept, Pending;
    InvInitial();
    SealedRun(INITIAL, es, r);
    WindowProper(r.ds, r.h);
    assert multiset(r.h.waits.Keys)[w] == 1;
    var i := PendingIn(r.ds.work, SIZE, w);
    var a := SlotOnto(r.h.base, i);
    assert SlotOk(r.ds, r.h, a);
    assert SealedIn(r.h, w, a);
    assert SlotOk(r.ds, r.h, r.h.base);
    assert Holders(r.h.live, r.h.base) != {};
    var t :| t in Holders(r.h.live, r.h.base);
  }

  /** The slot after current is in use exactly when all 64 are. */
  lemma CrowdedIff(es: seq<Event>, r: Sys)
    requires Reaches(INITIAL, es, r)
    ensures Shape(r.ds) && (r.ds.count[Next(r.ds.current)] > 0 <==> r.h.top == r.h.base + 63)
  {
    hide Slot, Next, Conserved, Tokens, GraceKept;
    InvInitial();
    InvRun(INITIAL, es, r);
    SlotSteps(r.h.top);
    SlotSteps(r.h.base);
    if r.h.top + 1 < r.h.base + SIZE { PastTop(r.ds, r.h, r.h.top + 1); }
  }

  /** One entry, and work behind it. */
  lemma AddBehind() returns (s: Sys)
    ensures Inv(s) && s.h.live == map[0 := 0] && s.h.issued == 1 && s.h.waits == map[5 := {0}] && s.h.crowded == {}
    ensures s.h.deferred == [5] && s.h.released == []
    ensures forall es, r :: Reaches(s, es, r) ==> Reaches(INITIAL, [EntryInc, AddItem(5)] + es, r)
  {
    hide Inv, Reaches;
    InvInitial();
    var s1 := Step(INITIAL, EntryInc);
    InvStep(INITIAL, EntryInc);
    InvStep(s1, AddItem(5));
    s := Step(s1, AddItem(5));
    assert [] + [5] == [5] && s1.h.live.Keys == {0};
    forall es, r | Reaches(s, es, r)
      ensures Reaches(INITIAL, [EntryInc, AddItem(5)] + es, r)
    {
      Prepend(s1, AddItem(5), es, r);
      Prepend(INITIAL, EntryInc, [AddItem(5)] + es, r);
      assert [EntryInc] + ([AddItem(5)] + es) == [EntryInc, AddItem(5)] + es;
    }
  }

  lemma Prepend(s: Sys, e: Event, es: seq<Event>, r: Sys)
    requires CanStep(s, e) && Reaches(Step(s, e), es, r)
    ensures Reaches(s, [e] + es, r)
  {
    hide CanStep, Step;
    assert ([e] + es)[1..] == es;
  }

  lemma ReachesNone(s: Sys)
    ensures Reaches(s, [], s)
  {}

  /** Two entries, and work added in between: it comes out with the first. */
  lemma PromptRun() returns (r: Sys)
    ensures Reaches(INITIAL, [EntryInc, AddItem(5), EntryInc, EntryDec(0)], r) && Works(r.h.released) == [5] && 1 in r.h.live
  {
    hide Inv, Reaches;
    var s := AddBehind();
    InvStep(s, EntryInc);
    var s' := Step(s, EntryInc);
    assert s'.h.live == map[0 := 0, 1 := s.h.top];
    assert s'.h.waits == s.h.waits && s'.h.deferred == [5] && s'.h.crowded == {};
    assert Legal(s', EntryDec(0));
    hide Step, CanStep;
    InvStep(s', EntryDec(0));
    DecIs(s', 0);
    r := Step(s', EntryDec(0));
    ReachesNone(r);
    Prepend(s', EntryDec(0), [], r);
    Prepend(s, EntryInc, [EntryDec(0)] + [], r);
    var es := [EntryInc, AddItem(5)] + ([EntryInc] + ([EntryDec(0)] + []));
    assert es == [EntryInc, AddItem(5), EntryInc, EntryDec(0)];
    OnlyFive(es, s', r);
  }

  lemma OnlyFive(es: seq<Event>, s: Sys, r: Sys)
    requires Reaches(INITIAL, es, r) && Inv(r)
    requires s.h.waits == map[5 := {0}] && s.h.crowded == {} && r.h.deferred == [5] && 0 !in r.h.live && r.h.crowded == {}
    requires forall w :: w in r.h.waits ==> w in s.h.waits && r.h.waits[w] == s.h.waits[w]
    ensures Works(r.h.released) == [5]
  {
    hide Inv, Reaches;
    if 5 in r.h.waits { Prompt(es, r, 5); }
    assert r.h.waits.Keys == {};
    Conservation(es, r);
    var ws := Works(r.h.released);
    assert multiset([5]) == multiset(ws);
    assert |multiset(ws)| == |ws| == 1;
    assert ws[0] in multiset(ws);
  }

  /* ---------- a crowded item can be held back by later entries ---------- */

  /** Entry t is in the current slot with item w. */
  ghost predicate Stuck(s: Sys, t: Token, w: Work) {
    Inv(s) && t in s.h.live && s.h.live[t] == s.h.top && w in s.ds.work[s.ds.current]
  }

  lemma StuckDec(s: Sys, t: Token, w: Work, x: Token)
    requires Stuck(s, t, w) && x in s.h.live && x != t
    ensures CanStep(s, EntryDec(x)) && Stuck(Step(s, EntryDec(x)), t, w)
    ensures w in s.h.waits && w in Step(s, EntryDec(x)).h.waits && Step(s, EntryDec(x)).h.waits[w] == s.h.waits[w]
    ensures Step(s, EntryDec(x)).h.live == s.h.live - {x}
  {
    hide Inv, Step, CanStep;
    DecKeeps(s, x);
    DecIs(s, x);
    assert t in Holders(s.h.live - {x}, s.h.top);
    var r := Step(s, EntryDec(x));
    InWaits(r, r.ds.current, w);
  }

  lemma {:induction false} DropOthers(s: Sys, t: Token, w: Work) returns (es: seq<Event>, r: Sys)
    requires Stuck(s, t, w)
    ensures Reaches(s, es, r) && w in s.h.waits && w in r.h.waits && r.h.waits[w] == s.h.waits[w] && r.h.live.Keys == {t}
    decreases |s.h.live.Keys|
  {
    hide Inv, Step, CanStep;
    assert Shape(s.ds) by { InvShape(s); }
    InWaits(s, s.ds.current, w);
    if s.h.live.Keys == {t} {
      return [], s;
    }
    var x :| x in s.h.live && x != t;
    StuckDec(s, t, w, x);
    assert (s.h.live - {x}).Keys == s.h.live.Keys - {x};
    es, r := DropOthers(Step(s, EntryDec(x)), t, w);
    Prepend(s, EntryDec(x), es, r);
    es := [EntryDec(x)] + es;
  }

  lemma InvShape(s: Sys)
    requires Inv(s)
    ensures Shape(s.ds)
  {}

  /** Whenever an addition finds the ring crowded, a run goes on from there in which the item is
      held back although no entry taken before it is outstanding. */
  lemma CrowdedHeldBack(s: Sys, w: Work) returns (es: seq<Event>, r: Sys)
    requires Inv(s) && w !in s.h.waits && s.ds.count[Next(s.ds.current)] > 0
    ensures Reaches(s, [AddItem(w), EntryInc] + es, r) && w in r.h.waits && r.h.waits[w] !! r.h.live.Keys && r.h.live != map[]
  {
    hide Slot, Conserved, GraceKept, SlotOk;
    var s1 := Step(s, AddItem(w));
    BusyNotIdle(s);
    AddKeeps(s, w);
    var s2 := Step(s1, EntryInc);
    IncKeeps(s1);
    assert Stuck(s2, s.h.issued, w);
    es, r := DropOthers(s2, s.h.issued, w);
    Prepend(s1, EntryInc, es, r);
    Prepend(s, AddItem(w), [EntryInc] + es, r);
    assert [AddItem(w)] + ([EntryInc] + es) == [AddItem(w), EntryInc] + es;
  }

  lemma BusyNotIdle(s: Sys)
    requires Inv(s) && s.ds.count[Next(s.ds.current)] > 0
    ensures !Idle(s.ds)
  {
    hide Slot, Next, Conserved, Tokens, GraceKept;
    SlotSteps(s.h.top);
    WindowProper(s.ds, s.h);
    if s.h.base == s.h.top { PastTop(s.ds, s.h, s.h.top + 1); }
  }

  /* ---------- the ring is a queue ---------- */

  /** The work in slots base up to but not including top, the latest first. */
  ghost function Line(work: seq<seq<Work>>, base: nat, top: nat): (s: seq<Work>)
    requires |work| == SIZE && base <= top
    decreases top - base
  {
    if base == top then [] else work[Slot(top - 1)] + Line(work, base, top - 1)
  }

  lemma {:induction false} LineSame(work: seq<seq<Work>>, work': seq<seq<Work>>, base: nat, top: nat)
    requires |work| == |work'| == SIZE && base <= top && forall a :: base <= a < top ==> work[Slot(a)] == work'[Slot(a)]
    ensures Line(work, base, top) == Line(work', base, top)
    decreases top - base
  {
    hide Slot;
    if base < top { LineSame(work, work', base, top - 1); }
  }

  lemma {:induction false} LineEnd(work: seq<seq<Work>>, base: nat, top: nat)
    requires |work| == SIZE && base < top
    ensures Line(work, base, top) == Line(work, base + 1, top) + work[Slot(base)]
    decreases top - base
  {
    hide Slot;
    if base + 1 < top { LineEnd(work, base, top - 1); }
  }

  /** All deferred work, the latest first. */
  ghost function Queue(s: Sys): (q: seq<Work>)
    requires |s.ds.work| == SIZE && s.h.base <= s.h.top
  {
    Line(s.ds.work, s.h.base, s.h.top + 1)
  }

  lemma {:induction false} SweepLoopLine(ds: Slots, head: seq<Work>, h: History)
    requires Window(ds, h)
    ensures var (d, out) := SweepLoop(ds, head);
            && h.base + SweepSteps(ds) <= h.top && |d.work| == SIZE && |ds.work| == SIZE
            && Line(ds.work, h.base, h.top + 1) + head == Line(d.work, h.base + SweepSteps(ds), h.top + 1) + out
    decreases Gap(ds)
  {
    hide Window, Line, Slot, Next, Gap, SweepLoop, SweepSteps;
    WindowProper(ds, h);
    StepsOnce(ds);
    if ds.sweeper == ds.current || ds.count[ds.sweeper] > 0 {
      SweepDone(ds, head);
    } else {
      SweepOnce(ds, head);
      PassSlot(ds, h);
      var d := ds.(work := ds.work[ds.sweeper := []], sweeper := Next(ds.sweeper));
      LineOff(ds, h);
      SweepLoopLine(d, ds.work[ds.sweeper] + head, h.(base := h.base + 1));
      assert Line(d.work, h.base + 1, h.top + 1) + ds.work[ds.sweeper] + head == Line(d.work, h.base + 1, h.top + 1) + (ds.work[ds.sweeper] + head);
    }
  }

  /** The sweeper's slot is the end of the line. */
  lemma LineOff(ds: Slots, h: History)
    requires Window(ds, h)
    ensures var work' := ds.work[ds.sweeper := []];
            && Line(ds.work, h.base, h.top + 1) == Line(work', h.base + 1, h.top + 1) + ds.work[ds.sweeper]
            && Line(work', h.base, h.top + 1) == Line(work', h.base + 1, h.top + 1)
  {
    hide Slot, SlotOk, Line;
    var work' := ds.work[ds.sweeper := []];
    LineEnd(ds.work, h.base, h.top + 1);
    LineEnd(work', h.base, h.top + 1);
    forall a | h.base + 1 <= a < h.top + 1
      ensures ds.work[Slot(a)] == work'[Slot(a)]
    {
      SlotsApart(h.base, a);
    }
    LineSame(ds.work, work', h.base + 1, h.top + 1);
    assert Line(work', h.base + 1, h.top + 1) + [] == Line(work', h.base + 1, h.top + 1);
  }

  lemma SweepLine(ds: Slots, head: seq<Work>, h: History)
    requires Window(ds, h)
    ensures var (d, out) := Sweep(ds, head);
            && h.base + SweepSteps(ds) <= h.top && |d.work| == SIZE && |ds.work| == SIZE
            && Line(ds.work, h.base, h.top + 1) + head == Line(d.work, h.base + SweepSteps(ds), h.top + 1) + out
  {
    hide Window, Line, Slot, SweepLoop, SweepSteps;
    assert Shape(ds) by { WindowProper(ds, h); }
    SweepLoopLine(ds, head, h);
    var (d, out) := SweepLoop(ds, head);
    var g := h.(base := h.base + SweepSteps(ds));
    SweepLoopWindow(ds, head, h);
    WindowProper(d, g);
    if Idle(d) {
      LineOff(d, g);
      var l := Line(d.work[d.sweeper := []], g.base, g.top + 1);
      assert l + d.work[d.sweeper] + out == l + (d.work[d.sweeper] + out);
    }
  }

  lemma {:induction false} SweepLoopWindow(ds: Slots, head: seq<Work>, h: History)
    requires Window(ds, h)
    ensures Window(SweepLoop(ds, head).0, h.(base := h.base + SweepSteps(ds)))
    decreases Gap(ds)
  {
    hide Window, Slot, Next, Gap, SweepLoop, SweepSteps;
    WindowProper(ds, h);
    StepsOnce(ds);
    if ds.sweeper == ds.current || ds.count[ds.sweeper] > 0 {
      SweepDone(ds, head);
    } else {
      SweepOnce(ds, head);
      PassSlot(ds, h);
      SweepLoopWindow(ds.(work := ds.work[ds.sweeper := []], sweeper := Next(ds.sweeper)), ds.work[ds.sweeper] + head, h.(base := h.base + 1));
    }
  }

  /** Nothing overtakes: a drop hands out the oldest part of the queue, the latest first, in front
      of what the caller's list held; an addition joins at the other end, unless it need not wait. */
  lemma QueueStep(s: Sys, e: Event, head: seq<Work>)
    requires Inv(s) && Legal(s, e)
    ensures CanStep(s, e) && Inv(Step(s, e)) && |s.ds.work| == |Step(s, e).ds.work| == SIZE
    ensures s.h.base <= s.h.top && Step(s, e).h.base <= Step(s, e).h.top
    ensures e.EntryInc? ==> Queue(Step(s, e)) == Queue(s)
    ensures e.EntryDec? ==> Dec(s.ds, Slot(s.h.live[e.t]), head).0 == Step(s, e).ds &&
                            Queue(s) + head == Queue(Step(s, e)) + Dec(s.ds, Slot(s.h.live[e.t]), head).1
    ensures e.AddItem? ==> Queue(Step(s, e)) == if s.h.live == map[] then Queue(s) else [e.w] + Queue(s)
  {
    hide Inv, Step, CanStep, Line, Slot;
    InvStep(s, e);
    InvBounds(s);
    InvBounds(Step(s, e));
    match e
    case EntryInc => IncLine(s);
    case EntryDec(t) => DecLine(s, t, head);
    case AddItem(w) => AddLine(s, w);
  }

  lemma InvBounds(s: Sys)
    requires Inv(s)
    ensures Window(s.ds, s.h) && Shape(s.ds) && s.h.base <= s.h.top
  {}

  lemma IncLine(s: Sys)
    requires Inv(s)
    ensures CanStep(s, EntryInc) && Step(s, EntryInc).ds.work == s.ds.work
    ensures Step(s, EntryInc).h.base == s.h.base && Step(s, EntryInc).h.top == s.h.top
  {
    hide Slot;
  }

  lemma DecLine(s: Sys, t: Token, head: seq<Work>)
    requires Inv(s) && t in s.h.live
    ensures CanStep(s, EntryDec(t)) && |s.ds.work| == SIZE && s.h.base <= s.h.top
    ensures var r, o := Step(s, EntryDec(t)), Dec(s.ds, Slot(s.h.live[t]), head);
            && |r.ds.work| == SIZE && r.h.base <= r.h.top && o.0 == r.ds && Queue(s) + head == Queue(r) + o.1
  {
    hide Inv, Sweep, SweepSteps, Line, Slot;
    InvBounds(s);
    hide Window;
    var h, b := s.h, Slot(s.h.live[t]);
    DropKeeps(s.ds, h, t);
    var d, g := s.ds.(count := s.ds.count[b := s.ds.count[b] - 1]), h.(live := h.live - {t});
    SweepLine(d, head, g);
    SweepHead(d, head);
  }

  /** What the caller's list held does not matter to the ring. */
  lemma SweepHead(ds: Slots, head: seq<Work>)
    requires Shape(ds)
    ensures Sweep(ds, head).0 == Sweep(ds, []).0
  {
    hide SweepLoop;
    SweepLoopHead(ds, head, []);
  }

  lemma {:induction false} SweepLoopHead(ds: Slots, head: seq<Work>, head': seq<Work>)
    requires Shape(ds)
    ensures SweepLoop(ds, head).0 == SweepLoop(ds, head').0
    decreases Gap(ds)
  {
    hide SweepLoop, Gap, Next;
    if ds.sweeper != ds.current && ds.count[ds.sweeper] == 0 {
      SweepOnce(ds, head);
      SweepOnce(ds, head');
      SweepLoopHead(ds.(work := ds.work[ds.sweeper := []], sweeper := Next(ds.sweeper)), ds.work[ds.sweeper] + head, ds.work[ds.sweeper] + head');
    } else {
      SweepDone(ds, head);
      SweepDone(ds, head');
    }
  }

  lemma AddLine(s: Sys, w: Work)
    requires Inv(s) && w !in s.h.waits
    ensures CanStep(s, AddItem(w)) && |s.ds.work| == |Step(s, AddItem(w)).ds.work| == SIZE
    ensures s.h.base <= s.h.top && Step(s, AddItem(w)).h.base <= Step(s, AddItem(w)).h.top
    ensures Queue(Step(s, AddItem(w))) == if s.h.live == map[] then Queue(s) else [w] + Queue(s)
  {
    hide Slot, Next, SlotOk, Conserved, Tokens, GraceKept, Line;
    var ds, h, r := s.ds, s.h, Step(s, AddItem(w));
    IdleIff(s);
    if !Idle(ds) {
      var work' := ds.work[ds.current := [w] + ds.work[ds.current]];
      JoinLine(ds, h, w);
      SlotSteps(h.top);
      if ds.count[Slot(h.top + 1)] == 0 {
        NextEmpty(s);
        SlotsApart(h.top, h.top + 1);
        LineFront(work', h.base, h.top + 1);
        assert [] + Line(work', h.base, h.top + 1) == Line(work', h.base, h.top + 1);
      }
    }
  }

  lemma JoinLine(ds: Slots, h: History, w: Work)
    requires Window(ds, h)
    ensures Line(ds.work[ds.current := [w] + ds.work[ds.current]], h.base, h.top + 1) == [w] + Line(ds.work, h.base, h.top + 1)
  {
    hide Slot, SlotOk, Line;
    var work' := ds.work[ds.current := [w] + ds.work[ds.current]];
    forall a | h.base <= a < h.top
      ensures ds.work[Slot(a)] == work'[Slot(a)]
    {
      SlotsApart(a, h.top);
    }
    LineSame(ds.work, work', h.base, h.top);
    LineFront(ds.work, h.base, h.top);
    LineFront(work', h.base, h.top);
    assert [w] + ds.work[ds.current] + Line(ds.work, h.base, h.top) == [w] + (ds.work[ds.current] + Line(ds.work, h.base, h.top));
  }

  lemma LineFront(work: seq<seq<Work>>, base: nat, top: nat)
    requires |work| == SIZE && base <= top
    ensures Line(work, base, top + 1) == work[Slot(top)] + Line(work, base, top)
  {
    hide Slot;
  }

  lemma IdleIff(s: Sys)
    requires Inv(s)
    ensures Shape(s.ds) && (Idle(s.ds) <==> s.h.live == map[])
  {
    hide Slot, Conserved, Tokens, GraceKept;
    WindowProper(s.ds, s.h);
    assert SlotOk(s.ds, s.h, s.h.base);
    if Idle(s.ds) { assert s.h.live.Keys == Holders(s.h.live, s.h.base); }
    if s.h.live == map[] { assert Holders(s.h.live, s.h.base) == {}; }
  }
}
