/**
 * Layout handles: one object per handle-owning element, wrapping one node id
 * of the shared solver tree, and the recursive release of a handle's subtree.
 */
module TaffyNodes {
  import opened Wrappers
  import opened Seqs
  import opened NodeNames
  import opened Taffy

  /** The measure callback bound to a handle: text measurement of one widget-tree node. */
  datatype MeasureFunc = MeasureTextNodeOf(node: NodeRef)

  /** The style a new handle starts with: flex, stretch, and a column only for the root. */
  function DefaultNodeStyle(nodeName: Option<ElementName>): (s: Style)
    ensures s.display == Flex
    ensures s.alignItems == Some(AlignItems.Stretch)
    ensures s.flexDirection == FlexDirection.Column <==> nodeName == Some(InkRoot)
    ensures s.flexDirection != FlexDirection.Column ==> s.flexDirection == FlexDirection.Row
    ensures s.(flexDirection := DefaultStyle.flexDirection, alignItems := DefaultStyle.alignItems) == DefaultStyle
  {
    DefaultStyle.(
      display := Flex,
      flexDirection := if nodeName == Some(InkRoot) then FlexDirection.Column else FlexDirection.Row,
      alignItems := Some(AlignItems.Stretch))
  }

  // ---------------------------------------------------------------------
  // Shape of the solver tree needed to release a subtree

  /** `rank` strictly decreases from a parent to each of its children: the child lists have no cycle. */
  ghost predicate Ranked(m: map<Id, seq<Id>>, rank: map<Id, nat>) {
    && m.Keys <= rank.Keys
    && Closed(m)
    && (forall p, c :: p in m && c in m[p] ==> c in rank && p in rank && rank[c] < rank[p])
  }

  /** No child list repeats an id and no id is listed under two parents. */
  ghost predicate Forest(m: map<Id, seq<Id>>) {
    && (forall p | p in m :: NoDup(m[p]))
    && (forall p, q, y :: p in m && q in m && y in m[p] && y in m[q] ==> p == q)
  }

  /** `x` and every id reachable from it through child lists. */
  ghost function Subtree(m: map<Id, seq<Id>>, rank: map<Id, nat>, x: Id): (r: set<Id>)
    requires Ranked(m, rank) && x in m
    ensures x in r
    ensures forall y | y in r :: y in m && rank[y] <= rank[x]
    decreases rank[x], 1, 0
  {
    {x} + SubtreesOf(m, rank, m[x], rank[x])
  }

  /** The union of the subtrees of the ids in `cs`, each of rank below `bound`. */
  ghost function SubtreesOf(m: map<Id, seq<Id>>, rank: map<Id, nat>, cs: seq<Id>, bound: nat): (r: set<Id>)
    requires Ranked(m, rank) && forall c | c in cs :: c in m && rank[c] < bound
    ensures forall y | y in r :: y in m && rank[y] < bound
    decreases bound, 0, |cs|
  {
    if cs == [] then {}
    else SubtreesOf(m, rank, cs[..|cs| - 1], bound) + Subtree(m, rank, cs[|cs| - 1])
  }

  /** An id in the union lies in the subtree of one of the listed ids. */
  lemma {:induction false} SubtreesOfMember(m: map<Id, seq<Id>>, rank: map<Id, nat>, cs: seq<Id>, bound: nat, y: Id)
    returns (c: Id)
    requires Ranked(m, rank) && forall c | c in cs :: c in m && rank[c] < bound
    requires y in SubtreesOf(m, rank, cs, bound)
    ensures c in cs && y in Subtree(m, rank, c)
    decreases |cs|
  {
    var init := cs[..|cs| - 1];
    if y in Subtree(m, rank, cs[|cs| - 1]) {
      c := cs[|cs| - 1];
    } else {
      c := SubtreesOfMember(m, rank, init, bound, y);
      assert c in cs by { assert cs == init + [cs[|cs| - 1]]; }
    }
  }

  /** The union holds the subtree of each listed id. */
  lemma {:induction false} SubtreesOfCovers(m: map<Id, seq<Id>>, rank: map<Id, nat>, cs: seq<Id>, bound: nat, c: Id)
    requires Ranked(m, rank) && forall c | c in cs :: c in m && rank[c] < bound
    requires c in cs
    ensures Subtree(m, rank, c) <= SubtreesOf(m, rank, cs, bound)
    decreases |cs|
  {
    var init := cs[..|cs| - 1];
    if c != cs[|cs| - 1] {
      assert c in init by { assert cs == init + [cs[|cs| - 1]]; }
      SubtreesOfCovers(m, rank, init, bound, c);
    }
  }

  /** An id other than the root of a subtree has its parent inside that subtree. */
  lemma {:induction false} ParentWithin(m: map<Id, seq<Id>>, rank: map<Id, nat>, a: Id, y: Id) returns (p: Id)
    requires Ranked(m, rank) && a in m
    requires y in Subtree(m, rank, a) && y != a
    ensures p in Subtree(m, rank, a) && p in m && y in m[p]
    decreases rank[a]
  {
    var c := SubtreesOfMember(m, rank, m[a], rank[a], y);
    if y == c {
      p := a;
    } else {
      p := ParentWithin(m, rank, c, y);
      SubtreesOfCovers(m, rank, m[a], rank[a], c);
    }
  }

  /** In a forest, two subtrees that share an id are nested: one root lies in the other's subtree. */
  lemma {:induction false} Nested(m: map<Id, seq<Id>>, rank: map<Id, nat>, a: Id, b: Id, y: Id)
    requires Ranked(m, rank) && Forest(m) && a in m && b in m
    requires y in Subtree(m, rank, a) && y in Subtree(m, rank, b)
    ensures a in Subtree(m, rank, b) || b in Subtree(m, rank, a)
    decreases rank[a] - rank[y]
  {
    if y != a && y != b {
      var p := ParentWithin(m, rank, a, y);
      var q := ParentWithin(m, rank, b, y);
      assert p == q;
      Nested(m, rank, a, b, p);
    }
  }

  /** The subtrees of two different children of one node are disjoint. */
  lemma SiblingsDisjoint(m: map<Id, seq<Id>>, rank: map<Id, nat>, x: Id, a: Id, b: Id)
    requires Ranked(m, rank) && Forest(m) && x in m
    requires a in m[x] && b in m[x] && a != b
    ensures Subtree(m, rank, a) !! Subtree(m, rank, b)
  {
    if y :| y in Subtree(m, rank, a) && y in Subtree(m, rank, b) {
      Nested(m, rank, a, b, y);
      if a in Subtree(m, rank, b) {
        var p := ParentWithin(m, rank, b, a);
        assert false;
      } else {
        var p := ParentWithin(m, rank, a, b);
        assert false;
      }
    }
  }

  /** Deleting ids keeps the rank ordering and the forest shape. */
  lemma PruneShape(m: map<Id, seq<Id>>, rank: map<Id, nat>, gone: set<Id>)
    requires Ranked(m, rank) && Forest(m)
    ensures Ranked(Prune(m, gone), rank) && Forest(Prune(m, gone))
  {
    var r := Prune(m, gone);
    PruneClosed(m, gone);
    forall p | p in r
      ensures NoDup(r[p])
    {
      assert multiset(r[p]) <= multiset(m[p]);
    }
  }

  /** Ids whose subtrees avoid the deleted ids are still in the tree. */
  lemma PruneKeepsRoots(m: map<Id, seq<Id>>, rank: map<Id, nat>, gone: set<Id>, cs: seq<Id>, bound: nat)
    requires Ranked(m, rank)
    requires forall c | c in cs :: c in m && rank[c] < bound
    requires SubtreesOf(m, rank, cs, bound) !! gone
    ensures forall c | c in cs :: c in Prune(m, gone)
  {
    forall c | c in cs
      ensures c in Prune(m, gone)
    {
      SubtreesOfCovers(m, rank, cs, bound, c);
    }
  }

  /** Deleting ids outside the subtree of `c` leaves that subtree as it was. */
  lemma {:induction false} PruneKeepsSubtree(m: map<Id, seq<Id>>, rank: map<Id, nat>, gone: set<Id>, c: Id)
    requires Ranked(m, rank) && Ranked(Prune(m, gone), rank) && c in m
    requires Subtree(m, rank, c) !! gone
    ensures c in Prune(m, gone)
    ensures Subtree(Prune(m, gone), rank, c) == Subtree(m, rank, c)
    decreases rank[c], 1, 0
  {
    var r, kids := Prune(m, gone), m[c];
    var below := SubtreesOf(m, rank, kids, rank[c]);
    assert below !! gone by {
      assert Subtree(m, rank, c) == {c} + below;
    }
    forall d | d in kids
      ensures d !in gone
    {
      SubtreesOfCovers(m, rank, kids, rank[c], d);
    }
    WithoutNothing(kids, gone);
    assert r[c] == kids;
    PruneKeepsRoots(m, rank, gone, kids, rank[c]);
    PruneKeepsSubtrees(m, rank, gone, kids, rank[c]);
    assert Subtree(r, rank, c) == {c} + SubtreesOf(r, rank, kids, rank[c]);
  }

  /** Deleting ids outside the subtrees of `cs` leaves their union as it was. */
  lemma {:induction false} PruneKeepsSubtrees(m: map<Id, seq<Id>>, rank: map<Id, nat>, gone: set<Id>, cs: seq<Id>, bound: nat)
    requires Ranked(m, rank) && Ranked(Prune(m, gone), rank)
    requires forall c | c in cs :: c in m && rank[c] < bound
    requires forall c | c in cs :: c in Prune(m, gone)
    requires SubtreesOf(m, rank, cs, bound) !! gone
    ensures SubtreesOf(Prune(m, gone), rank, cs, bound) == SubtreesOf(m, rank, cs, bound)
    decreases bound, 0, |cs|
  {
    if cs != [] {
      var init, last := cs[..|cs| - 1], cs[|cs| - 1];
      assert forall c | c in init :: c in cs;
      PruneKeepsSubtrees(m, rank, gone, init, bound);
      PruneKeepsSubtree(m, rank, gone, last);
    }
  }

  /** The ids a log of removals removed. */
  ghost function RemovedIds(log: seq<Removal>): set<Id> {
    set e | e in log :: e.id
  }

  /** Every node in `log` had no children left when it was removed: children go before their parents. */
  ghost predicate LeavesOnly(log: seq<Removal>) {
    forall e | e in log :: e.childrenAtRemoval == []
  }

  /** `now` extends `before` with removals of exactly the ids `gone`, each a node without children by then. */
  ghost predicate LogFrom(before: seq<Removal>, now: seq<Removal>, gone: set<Id>) {
    && |before| <= |now| && now[..|before|] == before
    && RemovedIds(now[|before|..]) == gone
    && LeavesOnly(now[|before|..])
  }

  /** Two consecutive extensions of a log make one. */
  lemma LogFromTrans(r0: seq<Removal>, mid: seq<Removal>, now: seq<Removal>, a: set<Id>, b: set<Id>)
    requires LogFrom(r0, mid, a) && LogFrom(mid, now, b)
    ensures LogFrom(r0, now, a + b)
  {
    assert now[|r0|..] == mid[|r0|..] + now[|mid|..];
    assert now[..|r0|] == mid[..|r0|];
  }

  /** A log with nothing added. */
  lemma LogFromNothing(r0: seq<Removal>)
    ensures LogFrom(r0, r0, {})
  {
    assert r0[|r0|..] == [];
  }

  /** A one-entry log. */
  lemma LogOne(e: Removal)
    ensures RemovedIds([e]) == {e.id}
    ensures LeavesOnly([e]) <==> e.childrenAtRemoval == []
  {
    assert e in [e];
  }

  /** The subtrees of the children of `x`: what is released before `x` itself. */
  ghost function Below(m: map<Id, seq<Id>>, rank: map<Id, nat>, x: Id): set<Id>
    requires Ranked(m, rank) && x in m
  {
    SubtreesOf(m, rank, m[x], rank[x])
  }

  /** Releasing `x` after its children's subtrees is releasing the subtree of `x`. */
  lemma ReleaseRoot(m: map<Id, seq<Id>>, rank: map<Id, nat>, x: Id)
    requires Ranked(m, rank) && x in m
    ensures x !in Below(m, rank, x)
    ensures Subtree(m, rank, x) == Below(m, rank, x) + {x}
    ensures Without(m[x], Below(m, rank, x)) == []
    ensures Prune(Prune(m, Below(m, rank, x)), {x}) == Prune(m, Subtree(m, rank, x))
  {
    var below := Below(m, rank, x);
    forall c | c in m[x]
      ensures c in below
    {
      SubtreesOfCovers(m, rank, m[x], rank[x], c);
    }
    WithoutAll(m[x], below);
    PruneTwice(m, below, {x});
  }

  /** The subtree of the child at position `i` avoids the subtrees of the children before it. */
  lemma EarlierSiblingsDisjoint(m: map<Id, seq<Id>>, rank: map<Id, nat>, x: Id, i: nat)
    requires Ranked(m, rank) && Forest(m) && x in m && i < |m[x]|
    ensures SubtreesOf(m, rank, m[x][..i], rank[x]) !! Subtree(m, rank, m[x][i])
  {
    var kids := m[x];
    forall y | y in SubtreesOf(m, rank, kids[..i], rank[x])
      ensures y !in Subtree(m, rank, kids[i])
    {
      var c := SubtreesOfMember(m, rank, kids[..i], rank[x], y);
      NoDupPrefix(kids, i);
      SiblingsDisjoint(m, rank, x, c, kids[i]);
    }
  }

  /** The union over a prefix one longer adds the subtree of the next id. */
  lemma SubtreesOfNext(m: map<Id, seq<Id>>, rank: map<Id, nat>, cs: seq<Id>, bound: nat, i: nat)
    requires Ranked(m, rank) && forall c | c in cs :: c in m && rank[c] < bound
    requires i < |cs|
    ensures SubtreesOf(m, rank, cs[..i+1], bound) == SubtreesOf(m, rank, cs[..i], bound) + Subtree(m, rank, cs[i])
  {
    assert cs[..i+1][..i] == cs[..i];
  }

  /**
   * One step of the loop over the children `kids` of `x`: with the subtrees of
   * `kids[..i]` deleted, the subtree of `kids[i]` is intact, the tree keeps its
   * shape, and deleting that subtree next deletes the subtrees of `kids[..i+1]`.
   */
  lemma ChildStep(m: map<Id, seq<Id>>, rank: map<Id, nat>, x: Id, kids: seq<Id>, i: nat)
    requires Ranked(m, rank) && Forest(m) && x in m && kids == m[x] && i < |kids|
    ensures Ranked(Prune(m, SubtreesOf(m, rank, kids[..i], rank[x])), rank)
    ensures Forest(Prune(m, SubtreesOf(m, rank, kids[..i], rank[x])))
    ensures kids[i] in Prune(m, SubtreesOf(m, rank, kids[..i], rank[x]))
    ensures Subtree(Prune(m, SubtreesOf(m, rank, kids[..i], rank[x])), rank, kids[i]) == Subtree(m, rank, kids[i])
    ensures SubtreesOf(m, rank, kids[..i+1], rank[x]) == SubtreesOf(m, rank, kids[..i], rank[x]) + Subtree(m, rank, kids[i])
  {
    var done := SubtreesOf(m, rank, kids[..i], rank[x]);
    EarlierSiblingsDisjoint(m, rank, x, i);
    PruneShape(m, rank, done);
    PruneKeepsSubtree(m, rank, done, kids[i]);
    SubtreesOfNext(m, rank, kids, rank[x], i);
  }

  /** A layout handle: a node id of the shared solver tree and an optional measure callback. */
  class TaffyNode {
    const tree: TaffyTree
    const id: Id
    var measureFunc: Option<MeasureFunc>

    /** Allocates one new leaf, with the kind's default style, in `tree`. */
    constructor (tree: TaffyTree, nodeName: Option<ElementName>)
      requires tree.Valid()
      modifies tree`children, tree`styles, tree`next
      ensures this.tree == tree && tree.Valid()
      ensures id !in old(tree.children)
      ensures tree.children == old(tree.children)[id := []]
      ensures tree.styles == old(tree.styles)[id := DefaultNodeStyle(nodeName)]
      ensures measureFunc == None
    {
      var style := DefaultNodeStyle(nodeName);
      var leaf := tree.NewLeafWithContext(style);
      this.tree := tree;
      this.id := leaf;
      measureFunc := None;
    }

    /**
     * `free()`: removes `id` and all its descendants from the tree, children
     * before parents; every other node keeps its entry, minus the removed ids.
     */
    method Free(ghost rank: map<Id, nat>)
      requires tree.Valid() && id in tree.children
      requires Ranked(tree.children, rank) && Forest(tree.children)
      modifies tree`children, tree`styles, tree`layouts, tree`dirty, tree`removals
      ensures tree.Valid()
      ensures tree.Contents() == Release(old(tree.Contents()), Subtree(old(tree.children), rank, id))
      ensures LogFrom(old(tree.removals), tree.removals, Subtree(old(tree.children), rank, id))
      ensures tree.removals[|tree.removals| - 1] == Removal(id, [])
    {
      FreeRecursive(id, rank);
    }

    /** `freeRecursive(x)`: the same release, for a descendant `x`. */
    method FreeRecursive(x: Id, ghost rank: map<Id, nat>)
      requires tree.Valid() && x in tree.children
      requires Ranked(tree.children, rank) && Forest(tree.children)
      modifies tree`children, tree`styles, tree`layouts, tree`dirty, tree`removals
      ensures tree.Valid()
      ensures tree.Contents() == Release(old(tree.Contents()), Subtree(old(tree.children), rank, x))
      ensures LogFrom(old(tree.removals), tree.removals, Subtree(old(tree.children), rank, x))
      ensures tree.removals[|tree.removals| - 1] == Removal(x, [])
      decreases rank[x], 1
    {
      ghost var c0, r0 := tree.Contents(), tree.removals;
      ghost var below := Below(c0.children, rank, x);
      ReleaseRoot(c0.children, rank, x);
      FreeChildren(x, rank);
      ghost var mid := tree.removals;
      tree.Remove(x);
      ReleaseTwice(c0, below, {x});
      assert tree.removals[|mid|..] == [Removal(x, [])];
      LogOne(Removal(x, []));
      LogFromTrans(r0, mid, tree.removals, below, {x});
    }

    /** The loop of `free`/`freeRecursive`: releases the subtree of each child of `x`, in order. */
    method FreeChildren(x: Id, ghost rank: map<Id, nat>)
      requires tree.Valid() && x in tree.children
      requires Ranked(tree.children, rank) && Forest(tree.children)
      modifies tree`children, tree`styles, tree`layouts, tree`dirty, tree`removals
      ensures tree.Valid() && x in tree.children
      ensures tree.Contents() == Release(old(tree.Contents()), Below(old(tree.children), rank, x))
      ensures LogFrom(old(tree.removals), tree.removals, Below(old(tree.children), rank, x))
      decreases rank[x], 0
    {
      ghost var c0, r0 := tree.Contents(), tree.removals;
      ghost var m0 := c0.children;
      var kids := tree.Children(x);
      ReleaseNothing(c0);
      LogFromNothing(r0);
      ghost var done: set<Id> := {};
      for i := 0 to |kids|
        invariant done == SubtreesOf(m0, rank, kids[..i], rank[x])
        invariant tree.Valid()
        invariant tree.Contents() == Release(c0, done)
        invariant LogFrom(r0, tree.removals, done)
      {
        ghost var sub := Subtree(m0, rank, kids[i]);
        ChildStep(m0, rank, x, kids, i);
        ghost var mid := tree.removals;
        FreeRecursive(kids[i], rank);
        ReleaseTwice(c0, done, sub);
        LogFromTrans(r0, mid, tree.removals, done, sub);
        done := done + sub;
      }
      TakeAll(kids);
      ReleaseRoot(m0, rank, x);
    }
  }

  /** Releasing a handle with no children removes just that node. */
  lemma FreeLeaf(m: map<Id, seq<Id>>, rank: map<Id, nat>, x: Id)
    requires Ranked(m, rank) && x in m && m[x] == []
    ensures Subtree(m, rank, x) == {x}
  {
  }
}
