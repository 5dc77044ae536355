/** What the other modules share. */
module Collections {
  datatype Option<T> = None | Some(value: T)

  ghost predicate NoDup(s: seq<nat>) { forall i, j :: 0 <= i < j < |s| ==> s[i] != s[j] }

  ghost function Elements(s: seq<nat>): (r: set<nat>) { set x | x in s }

  lemma PushNoDup(s: seq<nat>, x: nat)
    requires NoDup(s) && x !in s
    ensures NoDup(s + [x])
  {}

  lemma NoDupJoin(s: seq<nat>, t: seq<nat>)
    requires NoDup(s) && NoDup(t) && forall b :: b in s ==> b !in t
    ensures NoDup(s + t)
  {
    var u := s + t;
    forall i, j | 0 <= i < j < |u|
      ensures u[i] != u[j]
    {
      if i < |s| && |s| <= j { assert u[i] in s && u[j] in t; }
    }
  }

  /* ---------- comings and goings ---------- */

  /** Everyone has gone as often as they came, but for those who are in now, who have come once
      more. */
  ghost predicate Balanced(came: seq<nat>, gone: seq<nat>, now: set<nat>) {
    forall x :: multiset(came)[x] == multiset(gone)[x] + if x in now then 1 else 0
  }

  lemma {:induction false} NoDupCount(s: seq<nat>, x: nat)
    requires NoDup(s)
    ensures multiset(s)[x] == if x in s then 1 else 0
    decreases |s|
  {
    if s != [] {
      assert s == s[..|s| - 1] + [s[|s| - 1]];
      NoDupCount(s[..|s| - 1], x);
    }
  }

  lemma Comes(came: seq<nat>, gone: seq<nat>, now: set<nat>, x: nat)
    requires Balanced(came, gone, now) && x !in now
    ensures Balanced(came + [x], gone, now + {x})
  {}

  lemma Go(came: seq<nat>, gone: seq<nat>, now: set<nat>, out: seq<nat>)
    requires Balanced(came, gone, now) && NoDup(out) && Elements(out) <= now
    ensures Balanced(came, gone + out, now - Elements(out))
  {
    forall x
      ensures multiset(came)[x] == multiset(gone + out)[x] + if x in now - Elements(out) then 1 else 0
    {
      NoDupCount(out, x);
      assert multiset(gone + out) == multiset(gone) + multiset(out);
    }
  }

  /* ---------- order of arrival ---------- */

  /** When x came last, or -1. */
  ghost function Arrival(came: seq<nat>, x: nat): (i: int)
    ensures -1 <= i < |came| && (i >= 0 <==> x in came) && (i >= 0 ==> came[i] == x)
  {
    if came == [] then -1
    else if came[|came| - 1] == x then |came| - 1
    else
      assert came == came[..|came| - 1] + [came[|came| - 1]];
      Arrival(came[..|came| - 1], x)
  }

  lemma Arrives(came: seq<nat>, x: nat, y: nat)
    ensures Arrival(came + [x], y) == if y == x then |came| else Arrival(came, y)
  {
    assert (came + [x])[..|came|] == came;
  }

  /** Those in line came in this order. */
  ghost predicate InOrder(line: seq<nat>, came: seq<nat>) {
    forall i, j :: 0 <= i < j < |line| ==> Arrival(came, line[i]) < Arrival(came, line[j])
  }

  lemma Queues(line: seq<nat>, came: seq<nat>, x: nat)
    requires InOrder(line, came) && x !in line
    ensures InOrder(line, came + [x]) && InOrder(line + [x], came + [x])
  {
    forall y
      ensures Arrival(came + [x], y) == if y == x then |came| else Arrival(came, y)
    {
      Arrives(came, x, y);
    }
  }

  lemma SuffixInOrder(front: seq<nat>, rest: seq<nat>, came: seq<nat>)
    requires InOrder(front + rest, came)
    ensures InOrder(rest, came)
  {
    var line := front + rest;
    forall i, j | 0 <= i < j < |rest|
      ensures Arrival(came, rest[i]) < Arrival(came, rest[j])
    {
      assert rest[i] == line[|front| + i] && rest[j] == line[|front| + j];
    }
  }
}
