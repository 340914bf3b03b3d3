/** The parent relation of the nodes table: upward walks, subtrees, acyclicity. */
module Forest {
  import opened Basics
  import opened Schema

  function Parent(ns: Nodes, x: Id): Option<Id> {
    if x in ns then ns[x].parent else None
  }

  /** The node reached from `x` after `n` steps to the parent, if the chain is that long. */
  function Up(ns: Nodes, x: Id, n: nat): Option<Id>
    decreases n
  {
    if n == 0 then Some(x)
    else match Parent(ns, x)
      case None => None
      case Some(p) => Up(ns, p, n - 1)
  }

  /** `x` lies in the subtree of `a`: the upward walk from `x` meets `a`. */
  ghost predicate Within(ns: Nodes, a: Id, x: Id) {
    exists n: nat :: Up(ns, x, n) == Some(a)
  }

  ghost function Subtree(ns: Nodes, a: Id): set<Id> {
    set x | x in ns && Within(ns, a, x)
  }

  ghost function StrictBelow(ns: Nodes, a: Id): set<Id> {
    set x | x in ns && x != a && Within(ns, a, x)
  }

  /** Every parent exists and is ranked strictly below its children. */
  ghost predicate Ranked(ns: Nodes, rank: map<Id, nat>) {
    ns.Keys <= rank.Keys && forall x {:trigger RankedAt(ns, rank, x)} | x in ns :: RankedAt(ns, rank, x)
  }

  predicate RankedAt(ns: Nodes, rank: map<Id, nat>, x: Id)
    requires x in ns
  {
    var p := ns[x].parent;
    x in rank && (p.Some? ==> p.value in ns && p.value in rank && rank[p.value] < rank[x])
  }

  ghost predicate Acyclic(ns: Nodes) {
    exists rank: map<Id, nat> :: Ranked(ns, rank)
  }

  lemma WithinSelf(ns: Nodes, a: Id)
    ensures Within(ns, a, a)
  {
    assert Up(ns, a, 0) == Some(a);
  }

  /** `p` leads from `x` up to `a`, parent by parent. */
  ghost predicate Path(ns: Nodes, p: seq<Id>, x: Id, a: Id) {
    && p != [] && p[0] == x && p[|p| - 1] == a
    && forall i | 0 <= i < |p| - 1 :: p[i] in ns && ns[p[i]].parent == Some(p[i + 1])
  }

  /** A node lies in a subtree exactly if a path of parents leads from it to the root of that subtree. */
  lemma WithinIff(ns: Nodes, a: Id, x: Id)
    ensures Within(ns, a, x) <==> exists p :: Path(ns, p, x, a)
  {
    if n: nat :| Up(ns, x, n) == Some(a) { PathUp(ns, a, x, n); }
    if p :| Path(ns, p, x, a) { UpPath(ns, a, x, p); }
  }

  lemma {:induction false} PathUp(ns: Nodes, a: Id, x: Id, n: nat)
    requires Up(ns, x, n) == Some(a)
    ensures exists p :: Path(ns, p, x, a)
    decreases n
  {
    if n == 0 {
      assert Path(ns, [x], x, a);
    } else {
      PathUp(ns, a, ns[x].parent.value, n - 1);
      var p :| Path(ns, p, ns[x].parent.value, a);
      assert Path(ns, [x] + p, x, a);
    }
  }

  lemma {:induction false} UpPath(ns: Nodes, a: Id, x: Id, p: seq<Id>)
    requires Path(ns, p, x, a)
    ensures Up(ns, x, |p| - 1) == Some(a)
    decreases |p|
  {
    if |p| > 1 { UpPath(ns, a, p[1], p[1..]); }
  }

  /** One step of the walk decides subtree membership. */
  lemma WithinStep(ns: Nodes, a: Id, x: Id)
    requires x != a
    ensures Within(ns, a, x) <==> Parent(ns, x).Some? && Within(ns, a, Parent(ns, x).value)
  {
    if Within(ns, a, x) {
      var n: nat :| Up(ns, x, n) == Some(a);
      assert n > 0;
      assert Up(ns, Parent(ns, x).value, n - 1) == Some(a);
    }
    if Parent(ns, x).Some? && Within(ns, a, Parent(ns, x).value) {
      var n: nat :| Up(ns, Parent(ns, x).value, n) == Some(a);
      assert Up(ns, x, n + 1) == Some(a);
    }
  }

  lemma {:induction false} UpRank(ns: Nodes, rank: map<Id, nat>, x: Id, n: nat)
    requires Ranked(ns, rank) && x in ns && Up(ns, x, n).Some?
    ensures Up(ns, x, n).value in ns && rank[Up(ns, x, n).value] + n <= rank[x]
    decreases n
  {
    assert RankedAt(ns, rank, x);
    if n > 0 {
      UpRank(ns, rank, ns[x].parent.value, n - 1);
    }
  }

  /** In a forest a subtree's root is no deeper than its members, and no member lies strictly above it. */
  lemma WithinRank(ns: Nodes, rank: map<Id, nat>, a: Id, x: Id)
    requires Ranked(ns, rank) && x in ns && Within(ns, a, x)
    ensures a in ns && rank[a] <= rank[x] && (x != a ==> rank[a] < rank[x])
  {
    var n: nat :| Up(ns, x, n) == Some(a);
    UpRank(ns, rank, x, n);
  }

  /** Rewriting the row of `a` itself never changes who lies below `a`. */
  lemma {:induction false} BelowIgnoresOwnRow(ns: Nodes, ns2: Nodes, a: Id, x: Id, n: nat)
    requires forall y | y != a :: Parent(ns, y) == Parent(ns2, y)
    requires Up(ns, x, n) == Some(a)
    ensures Within(ns2, a, x)
    decreases n
  {
    if x == a {
      WithinSelf(ns2, a);
    } else {
      BelowIgnoresOwnRow(ns, ns2, a, Parent(ns, x).value, n - 1);
      WithinStep(ns2, a, x);
    }
  }

  lemma SubtreeIgnoresOwnRow(ns: Nodes, ns2: Nodes, a: Id)
    requires ns.Keys == ns2.Keys
    requires forall y | y != a :: Parent(ns, y) == Parent(ns2, y)
    ensures Subtree(ns, a) == Subtree(ns2, a) && StrictBelow(ns, a) == StrictBelow(ns2, a)
  {
    forall x | x in ns ensures Within(ns, a, x) <==> Within(ns2, a, x) {
      if Within(ns, a, x) {
        var n: nat :| Up(ns, x, n) == Some(a);
        BelowIgnoresOwnRow(ns, ns2, a, x, n);
      }
      if Within(ns2, a, x) {
        var n: nat :| Up(ns2, x, n) == Some(a);
        BelowIgnoresOwnRow(ns2, ns, a, x, n);
      }
    }
  }

  /** A set that holds `a` and is closed under children holds the subtree of `a`. */
  lemma {:induction false} ClosedHoldsSubtree(ns: Nodes, S: set<Id>, a: Id, x: Id, n: nat)
    requires a in S
    requires forall y | y in ns && ns[y].parent.Some? && ns[y].parent.value in S :: y in S
    requires x in ns || x == a
    requires Up(ns, x, n) == Some(a)
    ensures x in S
    decreases n
  {
    if n > 0 {
      var p := ns[x].parent.value;
      if p in ns || p == a {
        ClosedHoldsSubtree(ns, S, a, p, n - 1);
      } else {
        assert false;
      }
    }
  }

  /** Hanging `id` under a node outside its own subtree keeps the table a forest: the whole subtree is
      re-ranked above the new parent. */
  lemma ReparentAcyclic(ns: Nodes, ns2: Nodes, id: Id, target: Id)
    requires Acyclic(ns) && id in ns && target in ns && !Within(ns, id, target)
    requires ns2.Keys == ns.Keys
    requires ns2[id].parent == Some(target)
    requires forall y | y in ns && y != id :: ns2[y].parent == ns[y].parent
    ensures Acyclic(ns2)
  {
    var rank :| Ranked(ns, rank);
    var S := Subtree(ns, id);
    var lift := map x | x in rank :: if x in S then rank[x] + rank[target] + 1 else rank[x];
    forall x | x in ns2 ensures RankedAt(ns2, lift, x) {
      assert RankedAt(ns, rank, x) && RankedAt(ns, rank, target);
      if x == id {
        WithinSelf(ns, id);
      } else {
        WithinStep(ns, id, x);
      }
    }
    assert Ranked(ns2, lift);
  }

  /** Adding a leaf, dropping a parent-closed remainder, or rewriting other columns keeps the forest. */
  lemma InsertAcyclic(ns: Nodes, id: Id, row: Node)
    requires Acyclic(ns) && id !in ns && row.parent.Some? && row.parent.value in ns
    ensures Acyclic(ns[id := row])
  {
    var rank :| Ranked(ns, rank);
    var r2 := rank[id := rank[row.parent.value] + 1];
    var ns2 := ns[id := row];
    assert RankedAt(ns, rank, row.parent.value);
    forall x | x in ns2 ensures RankedAt(ns2, r2, x) {
      if x != id { assert RankedAt(ns, rank, x); }
    }
    assert Ranked(ns2, r2);
  }

  lemma ShrinkAcyclic(ns: Nodes, ns2: Nodes)
    requires Acyclic(ns) && ns2.Keys <= ns.Keys
    requires forall x | x in ns2 :: ns2[x].parent == ns[x].parent
    requires forall x | x in ns2 && ns2[x].parent.Some? :: Parent(ns2, x).value in ns2
    ensures Acyclic(ns2)
  {
    var rank :| Ranked(ns, rank);
    forall x | x in ns2 ensures RankedAt(ns2, rank, x) { assert RankedAt(ns, rank, x); }
    assert Ranked(ns2, rank);
  }
}
