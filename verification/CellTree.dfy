/** The search trees of both bio prisons: cells keyed by block ranges, where ranges that
    overlap compare equal. */
module CellTree {
  import opened Collections

  /** struct dm_cell_key: the blocks lo up to but not including hi of a device. */
  datatype Key = Key(virt: int, dev: nat, lo: nat, hi: nat)

  type CellId = nat

  /** cmp_keys. */
  function Cmp(l: Key, r: Key): (c: int) {
    if l.virt < r.virt then -1
    else if l.virt > r.virt then 1
    else if l.dev < r.dev then -1
    else if l.dev > r.dev then 1
    else if l.hi <= r.lo then -1
    else if l.lo >= r.hi then 1
    else 0
  }

  predicate Proper(k: Key) { k.lo < k.hi }

  predicate Covers(k: Key, b: nat) { k.lo <= b < k.hi }

  /** The two ranges share a block of the same device. */
  ghost predicate Overlap(l: Key, r: Key) {
    l.virt == r.virt && l.dev == r.dev && exists b: nat :: Covers(l, b) && Covers(r, b)
  }

  lemma OverlapSelf(key: Key)
    requires Proper(key)
    ensures Overlap(key, key)
  {
    assert Covers(key, key.lo);
  }

  /** Any two keys are the same or have no block in common. */
  ghost predicate Partition(keys: set<Key>) { forall k, l :: k in keys && l in keys && Overlap(k, l) ==> k == l }

  /** Overlap is transitive on the keys, so that they fall into classes. */
  ghost predicate Classed(keys: set<Key>) {
    forall k, l, m :: k in keys && l in keys && m in keys && Overlap(k, l) && Overlap(l, m) ==> Overlap(k, m)
  }

  /** Single blocks are such keys. */
  lemma SingleBlocks(keys: set<Key>)
    requires forall k :: k in keys ==> k.hi == k.lo + 1
    ensures Partition(keys) && Classed(keys)
  {
    assert Partition(keys);
    PartitionClassed(keys);
  }

  lemma PartitionClassed(keys: set<Key>)
    requires Partition(keys)
    ensures Classed(keys)
  {
    hide Overlap;
  }

  lemma ClassedLess(keys: set<Key>, less: set<Key>)
    requires Classed(keys) && less <= keys
    ensures Classed(less)
  {
    hide Overlap;
  }

  lemma OverlapBack(k: Key, l: Key)
    requires Overlap(k, l)
    ensures Overlap(l, k)
  {}

  /** Within a class everything overlaps. */
  lemma Chain(keys: set<Key>, j: Key, k: Key, l: Key, m: Key)
    requires Classed(keys) && {j, k, l, m} <= keys && Overlap(k, j) && Overlap(k, l) && Overlap(l, m)
    ensures Overlap(j, m)
  {
    OverlapBack(k, j);
    hide Overlap;
    assert Overlap(j, l);
  }

  /** Block b of the key's device lies in the range k. */
  predicate Within(k: Key, key: Key, b: nat) { k.virt == key.virt && k.dev == key.dev && Covers(k, b) }

  lemma CmpIsOverlap(l: Key, r: Key)
    requires Proper(l) && Proper(r)
    ensures Cmp(l, r) == 0 <==> Overlap(l, r)
    ensures Cmp(l, r) == -Cmp(r, l)
  {
    if Cmp(l, r) == 0 {
      var b := if l.lo < r.lo then r.lo else l.lo;
      assert Covers(l, b) && Covers(r, b);
    }
  }

  lemma CmpTransitive(a: Key, b: Key, c: Key)
    requires Proper(b) && Cmp(a, b) < 0 && Cmp(b, c) < 0
    ensures Cmp(a, c) < 0
  {}

  /* ---------- trees ---------- */

  datatype Entry = Entry(key: Key, id: CellId)
  datatype Tree = Leaf | Node(left: Tree, entry: Entry, right: Tree)

  function Entries(t: Tree): (s: set<Entry>) {
    match t
    case Leaf => {}
    case Node(l, e, r) => Entries(l) + {e} + Entries(r)
  }

  /** The entries of l come before e and those of r after it, all with proper keys. */
  ghost predicate Sides(l: Tree, e: Entry, r: Tree) {
    && Proper(e.key)
    && (forall x :: x in Entries(l) ==> Proper(x.key) && Cmp(x.key, e.key) < 0)
    && (forall x :: x in Entries(r) ==> Proper(x.key) && Cmp(e.key, x.key) < 0)
  }

  /** A search tree on proper keys. */
  ghost predicate Ordered(t: Tree)
    decreases t, 1
  {
    match t
    case Leaf => true
    case Node(l, e, r) => Parted(l, e, r)
  }

  ghost predicate Parted(l: Tree, e: Entry, r: Tree)
    decreases Node(l, e, r), 0
  {
    Ordered(l) && Ordered(r) && Sides(l, e, r)
  }

  lemma NodeOrdered(l: Tree, e: Entry, r: Tree)
    ensures Ordered(Node(l, e, r)) <==> Ordered(l) && Ordered(r) && Sides(l, e, r)
    ensures Entries(Node(l, e, r)) == Entries(l) + {e} + Entries(r)
  {}

  /** Everything beyond a node that lies beyond key also lies beyond key. */
  lemma SideLies(t: Tree, key: Key)
    requires t.Node? && Ordered(t) && Proper(key)
    ensures Cmp(key, t.entry.key) < 0 ==> forall e :: e in Entries(t.right) ==> Cmp(key, e.key) < 0
    ensures Cmp(key, t.entry.key) > 0 ==> forall e :: e in Entries(t.left) ==> Cmp(key, e.key) > 0
  {
    hide Cmp;
    CmpIsOverlap(key, t.entry.key);
    forall e | e in Entries(t.right) && Cmp(key, t.entry.key) < 0
      ensures Cmp(key, e.key) < 0
    {
      CmpTransitive(key, t.entry.key, e.key);
    }
    forall e | e in Entries(t.left) && Cmp(key, t.entry.key) > 0
      ensures Cmp(key, e.key) > 0
    {
      CmpTransitive(e.key, t.entry.key, key);
      CmpIsOverlap(e.key, key);
    }
  }

  /** Live cells are pairwise disjoint. */
  lemma {:induction false} EntriesDisjoint(t: Tree, x: Entry, y: Entry)
    requires Ordered(t) && x in Entries(t) && y in Entries(t) && x != y
    ensures Proper(x.key) && Proper(y.key) && !Overlap(x.key, y.key)
  {
    hide Cmp, Overlap;
    assert Proper(x.key) && Proper(y.key);
    CmpIsOverlap(x.key, y.key);
    CmpIsOverlap(y.key, x.key);
    if x in Entries(t.left) && y in Entries(t.left) {
      EntriesDisjoint(t.left, x, y);
    } else if x in Entries(t.right) && y in Entries(t.right) {
      EntriesDisjoint(t.right, x, y);
    } else {
      SideLies(t, x.key);
      SideLies(t, y.key);
      CmpIsOverlap(x.key, t.entry.key);
      CmpIsOverlap(y.key, t.entry.key);
    }
  }

  /* ---------- search, link, erase ---------- */

  /** The cell that the walk from the root ends at, if any. */
  function Find(t: Tree, key: Key): (r: Option<CellId>) {
    match t
    case Leaf => None
    case Node(l, e, r) =>
      var c := Cmp(key, e.key);
      if c < 0 then Find(l, key) else if c > 0 then Find(r, key) else Some(e.id)
  }

  /** The entry, linked where the walk falls off the tree. */
  function Insert(t: Tree, n: Entry): (r: Tree) {
    match t
    case Leaf => Node(Leaf, n, Leaf)
    case Node(l, e, r) =>
      if Cmp(n.key, e.key) < 0 then Node(Insert(l, n), e, r) else Node(l, e, Insert(r, n))
  }

  /** Two trees, the first wholly before the second, as one. */
  function Join(l: Tree, r: Tree): (t: Tree) {
    match l
    case Leaf => r
    case Node(ll, e, lr) => Node(ll, e, Join(lr, r))
  }

  function Erase(t: Tree, key: Key): (r: Tree) {
    match t
    case Leaf => Leaf
    case Node(l, e, r) =>
      var c := Cmp(key, e.key);
      if c < 0 then Node(Erase(l, key), e, r) else if c > 0 then Node(l, e, Erase(r, key)) else Join(l, r)
  }

  /** Search finds a cell exactly when one overlaps the key, and what it finds overlaps. */
  lemma {:induction false} FindOverlap(t: Tree, key: Key)
    requires Ordered(t) && Proper(key)
    ensures Find(t, key).None? <==> forall e :: e in Entries(t) ==> !Overlap(key, e.key)
    ensures Find(t, key).Some? ==> exists e :: e in Entries(t) && Overlap(key, e.key) && e.id == Find(t, key).value
  {
    hide Cmp, Overlap;
    if t.Node? {
      SideLies(t, key);
      FindOverlap(t.left, key);
      FindOverlap(t.right, key);
      forall e | e in Entries(t)
        ensures Cmp(key, e.key) == 0 <==> Overlap(key, e.key)
      {
        CmpIsOverlap(key, e.key);
      }
      assert t.entry in Entries(t);
    }
  }

  /** New entries on the right sides of a node. */
  lemma SidesGrow(l: Tree, e: Entry, r: Tree, l': Tree, r': Tree)
    requires Sides(l, e, r) && Ordered(l') && Ordered(r')
    requires forall x :: x in Entries(l') && x !in Entries(l) ==> Proper(x.key) && Cmp(x.key, e.key) < 0
    requires forall x :: x in Entries(r') && x !in Entries(r) ==> Proper(x.key) && Cmp(e.key, x.key) < 0
    ensures Ordered(Node(l', e, r')) && Entries(Node(l', e, r')) == Entries(l') + {e} + Entries(r')
  {
    hide Cmp, Entries, Ordered;
    NodeOrdered(l', e, r');
  }

  lemma AddToUnion(l: set<Entry>, e: Entry, r: set<Entry>, n: set<Entry>)
    ensures (l + n) + {e} + r == l + {e} + r + n && l + {e} + (r + n) == l + {e} + r + n
  {}

  /** Linking an entry that overlaps nothing keeps the order and adds just that entry. */
  lemma {:induction false} InsertKeeps(t: Tree, n: Entry)
    requires Ordered(t) && Proper(n.key)
    requires forall e :: e in Entries(t) ==> Cmp(n.key, e.key) != 0
    ensures Ordered(Insert(t, n)) && Entries(Insert(t, n)) == Entries(t) + {n}
  {
    if t.Node? {
      hide Cmp, Ordered, Entries, Sides;
      var l, e, r := t.left, t.entry, t.right;
      NodeOrdered(l, e, r);
      SidesMean(l, e, r);
      assert e in Entries(t);
      CmpIsOverlap(n.key, e.key);
      AddToUnion(Entries(l), e, Entries(r), {n});
      if Cmp(n.key, e.key) < 0 {
        InsertKeeps(l, n);
        SidesGrow(l, e, r, Insert(l, n), r);
      } else {
        InsertKeeps(r, n);
        SidesGrow(l, e, r, l, Insert(r, n));
      }
    }
  }

  lemma {:induction false} JoinKeeps(l: Tree, r: Tree, k: Key)
    requires Ordered(l) && Ordered(r) && Proper(k)
    requires forall x :: x in Entries(l) ==> Cmp(x.key, k) < 0
    requires forall x :: x in Entries(r) ==> Proper(x.key) && Cmp(k, x.key) < 0
    ensures Ordered(Join(l, r)) && Entries(Join(l, r)) == Entries(l) + Entries(r)
  {
    if l.Node? {
      hide Cmp, Ordered, Entries, Sides;
      NodeOrdered(l.left, l.entry, l.right);
      SidesMean(l.left, l.entry, l.right);
      JoinKeeps(l.right, r, k);
      forall x | x in Entries(r)
        ensures Cmp(l.entry.key, x.key) < 0
      {
        assert l.entry in Entries(l);
        CmpTransitive(l.entry.key, k, x.key);
      }
      AddToUnion(Entries(l.left), l.entry, Entries(l.right), Entries(r));
      SidesGrow(l.left, l.entry, l.right, l.left, Join(l.right, r));
    }
  }

  /** Where an entry is. */
  lemma EntrySide(t: Tree, n: Entry)
    requires Ordered(t) && n in Entries(t)
    ensures t.Node? && Proper(n.key)
    ensures t.entry !in Entries(t.left) && t.entry !in Entries(t.right)
    ensures Cmp(n.key, t.entry.key) < 0 ==> n in Entries(t.left) && n !in Entries(t.right) && n != t.entry
    ensures Cmp(n.key, t.entry.key) > 0 ==> n in Entries(t.right) && n !in Entries(t.left) && n != t.entry
    ensures Cmp(n.key, t.entry.key) == 0 ==> n == t.entry
  {
    hide Cmp;
    CmpSelf(t.entry.key);
    CmpSelf(n.key);
    CmpIsOverlap(n.key, t.entry.key);
    SideLies(t, n.key);
  }

  lemma RemoveFromUnion(l: set<Entry>, e: Entry, r: set<Entry>, n: Entry)
    ensures n in l && n != e && n !in r ==> (l - {n}) + {e} + r == (l + {e} + r) - {n}
    ensures n in r && n != e && n !in l ==> l + {e} + (r - {n}) == (l + {e} + r) - {n}
    ensures n == e && n !in l && n !in r ==> l + r == (l + {e} + r) - {n}
  {}

  lemma SidesShrink(l: Tree, e: Entry, r: Tree, l': Tree, r': Tree)
    requires Sides(l, e, r) && Entries(l') <= Entries(l) && Entries(r') <= Entries(r)
    ensures Sides(l', e, r')
  {
    hide Cmp, Entries, Ordered;
  }

  /** Erasing the key of an entry removes that entry and no other. */
  lemma {:induction false} EraseKeeps(t: Tree, n: Entry)
    requires Ordered(t) && n in Entries(t)
    ensures Ordered(Erase(t, n.key)) && Entries(Erase(t, n.key)) == Entries(t) - {n}
  {
    hide Cmp, Entries, Ordered, Sides;
    EntrySide(t, n);
    var l, e, r := t.left, t.entry, t.right;
    NodeOrdered(l, e, r);
    assert Ordered(l) && Ordered(r) by { SidesMean(l, e, r); }
    RemoveFromUnion(Entries(l), e, Entries(r), n);
    if Cmp(n.key, e.key) < 0 {
      EraseKeeps(l, n);
      SidesShrink(l, e, r, Erase(l, n.key), r);
      NodeOrdered(Erase(l, n.key), e, r);
    } else if Cmp(n.key, e.key) > 0 {
      EraseKeeps(r, n);
      SidesShrink(l, e, r, l, Erase(r, n.key));
      NodeOrdered(l, e, Erase(r, n.key));
    } else {
      SidesMean(l, e, r);
      JoinKeeps(l, r, e.key);
    }
  }

  lemma SidesMean(l: Tree, e: Entry, r: Tree)
    requires Sides(l, e, r)
    ensures Proper(e.key)
    ensures forall x :: x in Entries(l) ==> Cmp(x.key, e.key) < 0
    ensures forall x :: x in Entries(r) ==> Proper(x.key) && Cmp(e.key, x.key) < 0
  {}

  lemma CmpSelf(k: Key)
    requires Proper(k)
    ensures Cmp(k, k) == 0
  {}

  /** A rotation, the only step of rebalancing that moves nodes, changes neither the order nor
      the entries. */
  lemma RotationInvisible(a: Tree, x: Entry, b: Tree, y: Entry, c: Tree)
    ensures var t, u := Node(Node(a, x, b), y, c), Node(a, x, Node(b, y, c));
            (Ordered(t) <==> Ordered(u)) && Entries(t) == Entries(u)
  {
    hide Cmp, Ordered, Parted, Entries;
    var t, u := Node(Node(a, x, b), y, c), Node(a, x, Node(b, y, c));
    NodeOrdered(t.left, y, c);
    NodeOrdered(a, x, b);
    NodeOrdered(a, x, u.right);
    NodeOrdered(b, y, c);
    if Ordered(t) {
      assert x in Entries(t.left);
      forall e | e in Entries(c)
        ensures Cmp(x.key, e.key) < 0
      {
        CmpTransitive(x.key, y.key, e.key);
      }
    }
    if Ordered(u) {
      assert y in Entries(u.right);
      forall e | e in Entries(a)
        ensures Cmp(e.key, y.key) < 0
      {
        CmpTransitive(e.key, x.key, y.key);
      }
    }
  }

  /* ---------- which of several overlapping entries is met ---------- */

  /** u is the part of t below and including entry e. */
  ghost predicate Below(t: Tree, e: Entry, u: Tree) {
    t.Node? && ((t == u && t.entry == e) || Below(t.left, e, u) || Below(t.right, e, u))
  }

  /** Of the entries that overlap the key, e lies above all others. */
  ghost predicate Topmost(t: Tree, key: Key, e: Entry) {
    Overlap(key, e.key) && exists u :: Below(t, e, u) && forall x :: x in Entries(t) && Overlap(key, x.key) ==> x in Entries(u)
  }

  lemma {:induction false} BelowEntries(t: Tree, e: Entry, u: Tree)
    requires Below(t, e, u)
    ensures e in Entries(u) && Entries(u) <= Entries(t)
  {
    if !(t == u && t.entry == e) {
      if Below(t.left, e, u) { BelowEntries(t.left, e, u); } else { BelowEntries(t.right, e, u); }
    }
  }

  /** Of two entries that overlap, the upper one is met: the walk ends at the topmost. */
  lemma {:induction false} TopmostMet(t: Tree, key: Key, e: Entry)
    requires Ordered(t) && Proper(key) && Topmost(t, key, e)
    ensures Find(t, key) == Some(e.id)
  {
    hide Cmp, Overlap;
    var u :| Below(t, e, u) && forall x :: x in Entries(t) && Overlap(key, x.key) ==> x in Entries(u);
    BelowEntries(t, e, u);
    EntrySide(t, e);
    CmpIsOverlap(key, t.entry.key);
    if Cmp(key, t.entry.key) == 0 {
      assert t.entry in Entries(u);
      if Below(t.left, e, u) { BelowEntries(t.left, e, u); }
      if Below(t.right, e, u) { BelowEntries(t.right, e, u); }
    } else {
      OneSide(t, key, e);
      if Below(t.left, e, u) { BelowEntries(t.left, e, u); }
      if Below(t.right, e, u) { BelowEntries(t.right, e, u); }
      TopmostMet(if Cmp(key, t.entry.key) < 0 then t.left else t.right, key, e);
    }
  }

  /** Off the root, what overlaps lies on one side. */
  lemma OneSide(t: Tree, key: Key, e: Entry)
    requires Ordered(t) && Proper(key) && t.Node? && e in Entries(t) && Overlap(key, e.key)
    ensures Cmp(key, t.entry.key) < 0 ==> e in Entries(t.left) && e !in Entries(t.right) && e != t.entry
    ensures Cmp(key, t.entry.key) > 0 ==> e in Entries(t.right) && e !in Entries(t.left) && e != t.entry
  {
    hide Cmp, Overlap;
    SideLies(t, key);
    EntrySide(t, e);
    CmpIsOverlap(key, e.key);
  }

  lemma {:induction false} MetTopmost(t: Tree, key: Key) returns (e: Entry)
    requires Ordered(t) && Proper(key) && Find(t, key).Some?
    ensures e in Entries(t) && e.id == Find(t, key).value && Topmost(t, key, e)
  {
    hide Cmp, Overlap;
    CmpIsOverlap(key, t.entry.key);
    if Cmp(key, t.entry.key) == 0 {
      e := t.entry;
      assert Below(t, e, t);
    } else {
      var side := if Cmp(key, t.entry.key) < 0 then t.left else t.right;
      e := MetTopmost(side, key);
      var u :| Below(side, e, u) && forall x :: x in Entries(side) && Overlap(key, x.key) ==> x in Entries(u);
      forall x | x in Entries(t) && Overlap(key, x.key)
        ensures x in Entries(u)
      {
        OneSide(t, key, x);
      }
      assert Below(t, e, u);
    }
  }

  /* ---------- any entry can be at the root ---------- */

  /** The part of t before key k. */
  function Before(t: Tree, k: Key): (r: Tree) {
    match t
    case Leaf => Leaf
    case Node(l, e, r) => if Cmp(e.key, k) < 0 then Node(l, e, Before(r, k)) else Before(l, k)
  }

  function After(t: Tree, k: Key): (r: Tree) {
    match t
    case Leaf => Leaf
    case Node(l, e, r) => if Cmp(k, e.key) < 0 then Node(After(l, k), e, r) else After(r, k)
  }

  lemma {:induction false} BeforeKeeps(t: Tree, k: Key)
    requires Ordered(t) && Proper(k)
    ensures Ordered(Before(t, k))
    ensures forall x :: x in Entries(Before(t, k)) <==> x in Entries(t) && Cmp(x.key, k) < 0
  {
    hide Cmp;
    if t.Node? {
      BeforeKeeps(t.left, k);
      BeforeKeeps(t.right, k);
      CmpIsOverlap(t.entry.key, k);
      forall x | x in Entries(t)
        ensures x in Entries(t.left) && Cmp(t.entry.key, k) < 0 ==> Cmp(x.key, k) < 0
        ensures x in Entries(t.right) && Cmp(t.entry.key, k) >= 0 ==> Cmp(x.key, k) >= 0
      {
        if x in Entries(t.left) && Cmp(t.entry.key, k) < 0 { CmpTransitive(x.key, t.entry.key, k); }
        if x in Entries(t.right) && Cmp(t.entry.key, k) >= 0 && Cmp(x.key, k) < 0 { CmpTransitive(t.entry.key, x.key, k); }
      }
    }
  }

  lemma {:induction false} AfterKeeps(t: Tree, k: Key)
    requires Ordered(t) && Proper(k)
    ensures Ordered(After(t, k))
    ensures forall x :: x in Entries(After(t, k)) <==> x in Entries(t) && Cmp(k, x.key) < 0
  {
    hide Cmp;
    if t.Node? {
      AfterKeeps(t.left, k);
      AfterKeeps(t.right, k);
      CmpIsOverlap(t.entry.key, k);
      forall x | x in Entries(t)
        ensures x in Entries(t.right) && Cmp(k, t.entry.key) < 0 ==> Cmp(k, x.key) < 0
        ensures x in Entries(t.left) && Cmp(k, t.entry.key) >= 0 ==> Cmp(k, x.key) >= 0
      {
        if x in Entries(t.right) && Cmp(k, t.entry.key) < 0 { CmpTransitive(k, t.entry.key, x.key); }
        if x in Entries(t.left) && Cmp(k, t.entry.key) >= 0 && Cmp(k, x.key) < 0 { CmpTransitive(k, x.key, t.entry.key); }
      }
    }
  }

  /** A search tree of the same entries with e at its root. */
  function Rooted(t: Tree, e: Entry): (r: Tree) { Node(Before(t, e.key), e, After(t, e.key)) }

  lemma Trichotomy(t: Tree, e: Entry, x: Entry)
    requires Ordered(t) && e in Entries(t) && x in Entries(t)
    ensures Proper(x.key) && Proper(e.key) && (x == e || Cmp(x.key, e.key) < 0 || Cmp(e.key, x.key) < 0)
  {
    hide Cmp, Overlap;
    EntrySide(t, x);
    EntrySide(t, e);
    CmpIsOverlap(x.key, e.key);
    if x != e { EntriesDisjoint(t, x, e); }
  }

  lemma RootedKeeps(t: Tree, e: Entry)
    requires Ordered(t) && e in Entries(t)
    ensures Ordered(Rooted(t, e)) && Entries(Rooted(t, e)) == Entries(t)
  {
    hide Cmp, Ordered, Entries, Before, After;
    Trichotomy(t, e, e);
    BeforeKeeps(t, e.key);
    AfterKeeps(t, e.key);
    forall x | x in Entries(t)
      ensures Proper(x.key) && (x == e || Cmp(x.key, e.key) < 0 || Cmp(e.key, x.key) < 0)
    {
      Trichotomy(t, e, x);
    }
    var l, r := Before(t, e.key), After(t, e.key);
    NodeOrdered(l, e, r);
    assert forall x :: x in Entries(l) + {e} + Entries(r) <==> x in Entries(t);
  }
}
