/** The search trees of md/dm-bufio.c, keyed by block number. Balancing is left out: only the
    order of the keys matters to the walks. */
module BlockTree {
  import opened Collections

  datatype Tree = Leaf | Node(left: Tree, block: nat, id: nat, right: Tree)

  /** What the tree holds. */
  function Blocks(t: Tree): (m: map<nat, nat>) {
    match t
    case Leaf => map[]
    case Node(l, b, id, r) => (Blocks(l) + Blocks(r))[b := id]
  }

  /** The blocks of l come before b and those of r after it. */
  ghost predicate Sides(l: Tree, b: nat, r: Tree) {
    (forall k :: k in Blocks(l) ==> k < b) && (forall k :: k in Blocks(r) ==> b < k)
  }

  ghost predicate Ordered(t: Tree) {
    match t
    case Leaf => true
    case Node(l, b, _, r) => Ordered(l) && Ordered(r) && Sides(l, b, r)
  }

  function Insert(t: Tree, b: nat, id: nat): (r: Tree) {
    match t
    case Leaf => Node(Leaf, b, id, Leaf)
    case Node(tl, tb, tid, tr) => if b < tb then t.(left := Insert(tl, b, id)) else t.(right := Insert(tr, b, id))
  }

  /** l and then r. */
  function Join(l: Tree, r: Tree): (t: Tree) {
    match l
    case Leaf => r
    case Node(_, _, _, lr) => l.(right := Join(lr, r))
  }

  function Erase(t: Tree, b: nat): (r: Tree) {
    match t
    case Leaf => Leaf
    case Node(tl, tb, _, tr) =>
      if b < tb then t.(left := Erase(tl, b)) else if b > tb then t.(right := Erase(tr, b)) else Join(tl, tr)
  }

  lemma NodeOrdered(l: Tree, b: nat, id: nat, r: Tree)
    ensures Ordered(Node(l, b, id, r)) <==> Ordered(l) && Ordered(r) && Sides(l, b, r)
    ensures Blocks(Node(l, b, id, r)) == (Blocks(l) + Blocks(r))[b := id]
  {}

  lemma PutThrough(l: map<nat, nat>, r: map<nat, nat>, b: nat, id: nat, k: nat, v: nat)
    requires k != b
    ensures k !in r ==> (l[k := v] + r)[b := id] == (l + r)[b := id][k := v]
    ensures (l + r[k := v])[b := id] == (l + r)[b := id][k := v]
  {}

  lemma CutThrough(l: map<nat, nat>, r: map<nat, nat>, b: nat, id: nat, k: nat)
    ensures k != b && k !in r ==> ((l - {k}) + r)[b := id] == (l + r)[b := id] - {k}
    ensures k != b && k !in l ==> (l + (r - {k}))[b := id] == (l + r)[b := id] - {k}
    ensures k == b && k !in l && k !in r ==> l + r == (l + r)[b := id] - {k}
  {}

  lemma JoinThrough(l: map<nat, nat>, m: map<nat, nat>, b: nat, id: nat, r: map<nat, nat>)
    requires b !in r
    ensures (l + (m + r))[b := id] == (l + m)[b := id] + r
  {}

  lemma {:induction false} InsertKeeps(t: Tree, b: nat, id: nat)
    requires Ordered(t) && b !in Blocks(t)
    ensures Ordered(Insert(t, b, id)) && Blocks(Insert(t, b, id)) == Blocks(t)[b := id]
  {
    if t.Node? {
      hide Blocks, Ordered;
      NodeOrdered(t.left, t.block, t.id, t.right);
      PutThrough(Blocks(t.left), Blocks(t.right), t.block, t.id, b, id);
      if b < t.block {
        InsertKeeps(t.left, b, id);
        NodeOrdered(Insert(t.left, b, id), t.block, t.id, t.right);
      } else {
        InsertKeeps(t.right, b, id);
        NodeOrdered(t.left, t.block, t.id, Insert(t.right, b, id));
      }
    }
  }

  lemma {:induction false} JoinKeeps(l: Tree, b: nat, r: Tree)
    requires Ordered(l) && Ordered(r) && Sides(l, b, r)
    ensures Ordered(Join(l, r)) && Blocks(Join(l, r)) == Blocks(l) + Blocks(r)
  {
    if l.Node? {
      hide Blocks, Ordered;
      NodeOrdered(l.left, l.block, l.id, l.right);
      assert l.block in Blocks(l) && forall k :: k in Blocks(l.right) ==> k in Blocks(l);
      JoinKeeps(l.right, b, r);
      JoinThrough(Blocks(l.left), Blocks(l.right), l.block, l.id, Blocks(r));
      NodeOrdered(l.left, l.block, l.id, Join(l.right, r));
    }
  }

  lemma {:induction false} EraseKeeps(t: Tree, b: nat)
    requires Ordered(t)
    ensures Ordered(Erase(t, b)) && Blocks(Erase(t, b)) == Blocks(t) - {b}
  {
    if t.Node? {
      hide Blocks, Ordered;
      NodeOrdered(t.left, t.block, t.id, t.right);
      CutThrough(Blocks(t.left), Blocks(t.right), t.block, t.id, b);
      if b < t.block {
        EraseKeeps(t.left, b);
        NodeOrdered(Erase(t.left, b), t.block, t.id, t.right);
      } else if b > t.block {
        EraseKeeps(t.right, b);
        NodeOrdered(t.left, t.block, t.id, Erase(t.right, b));
      } else {
        JoinKeeps(t.left, b, t.right);
      }
    }
  }

  /** Going left or right loses nothing that lies on that side. */
  lemma Side(t: Tree)
    requires t.Node? && Ordered(t)
    ensures forall k :: k in Blocks(t) && k < t.block ==> k in Blocks(t.left) && Blocks(t.left)[k] == Blocks(t)[k]
    ensures forall k :: k in Blocks(t) && k > t.block ==> k in Blocks(t.right) && Blocks(t.right)[k] == Blocks(t)[k]
    ensures forall k :: k in Blocks(t.left) ==> k in Blocks(t) && k < t.block && Blocks(t)[k] == Blocks(t.left)[k]
    ensures forall k :: k in Blocks(t.right) ==> k in Blocks(t) && k > t.block && Blocks(t)[k] == Blocks(t.right)[k]
  {}

  /** __cache_get: the walk finds the block exactly when the tree holds it. */
  method Search(root: Tree, b: nat) returns (r: Option<nat>)
    requires Ordered(root)
    ensures r == if b in Blocks(root) then Some(Blocks(root)[b]) else None
  {
    hide Blocks;
    var n := root;
    while n.Node?
      invariant Ordered(n) && (b in Blocks(root) <==> b in Blocks(n)) && (b in Blocks(n) ==> Blocks(root)[b] == Blocks(n)[b])
      decreases n
    {
      Side(n);
      Here(n);
      if n.block == b {
        return Some(n.id);
      }
      n := if b < n.block then n.left else n.right;
    }
    Nowhere(n);
    return None;
  }

  lemma Here(t: Tree)
    requires t.Node?
    ensures t.block in Blocks(t) && Blocks(t)[t.block] == t.id
  {}

  lemma Nowhere(t: Tree)
    requires t.Leaf?
    ensures Blocks(t) == map[]
  {}

  /** k is the least block of the tree at or after from. */
  ghost predicate IsNext(t: map<nat, nat>, from: nat, k: nat) {
    k in t && k >= from && forall j :: j in t && j >= from ==> k <= j
  }

  /** __find_next: the walk keeps the best candidate on its way down. */
  method FindNext(root: Tree, from: nat) returns (r: Option<(nat, nat)>)
    requires Ordered(root)
    ensures r.Some? ==> IsNext(Blocks(root), from, r.value.0) && r.value.1 == Blocks(root)[r.value.0]
    ensures r.None? <==> forall k :: k in Blocks(root) ==> k < from
  {
    hide Blocks;
    var n := root;
    var best: Option<(nat, nat)> := None;
    while n.Node?
      invariant Ordered(n)
      invariant forall k :: k in Blocks(n) ==> k in Blocks(root) && Blocks(root)[k] == Blocks(n)[k]
      invariant best.Some? ==> best.value.0 in Blocks(root) && best.value.0 >= from && best.value.1 == Blocks(root)[best.value.0]
      invariant best.Some? ==> forall k :: k in Blocks(n) ==> k < best.value.0
      invariant forall k :: k in Blocks(root) && k >= from && k !in Blocks(n) ==> best.Some? && best.value.0 <= k
      decreases n
    {
      Side(n);
      Here(n);
      if n.block == from {
        return Some((n.block, n.id));
      }
      if from <= n.block {
        best := Some((n.block, n.id));
        n := n.left;
      } else {
        n := n.right;
      }
    }
    Nowhere(n);
    return best;
  }
}
