/**
 * The node objects of the element tree as values: a record per node kept in
 * a map keyed by object identity, so that an assignment `node.parentNode = p`
 * updates the record at `node`. The edits the tree operations make are
 * functions here, with the invariants they keep: well-formedness, and the
 * agreement of parent pointers with child lists. The walk to the closest
 * layout handle lives here too.
 */
module DomNodes {
  import opened Wrappers
  import opened Seqs
  import opened NodeNames
  import opened Taffy
  import opened TaffyNodes
  import opened StyleTranslator

  /** An attribute value (`boolean | string | number`). */
  datatype Attribute = BoolAttribute(b: bool) | StringAttribute(s: string) | NumberAttribute(n: real)

  /** The handle ids of an optional handle. */
  function IdsOf(h: Option<TaffyNode>): set<Id> {
    if h.Some? then {h.value.id} else {}
  }

  /** Append `child`'s handle id to `parent`'s solver child list, when both have handles (`addChild`). */
  function Attach(m: map<Id, seq<Id>>, parent: Option<TaffyNode>, child: Option<TaffyNode>): (r: map<Id, seq<Id>>)
    ensures r.Keys == m.Keys
  {
    if parent.Some? && child.Some? && parent.value.id in m then
      m[parent.value.id := m[parent.value.id] + [child.value.id]]
    else m
  }

  /**
   * Place `child`'s handle id at `index` of `parent`'s solver child list
   * (`insertChildAtIndex`), when both have handles; the solver refuses an
   * index beyond the end of the list.
   */
  function AttachAt(m: map<Id, seq<Id>>, parent: Option<TaffyNode>, index: nat, child: Option<TaffyNode>): (r: map<Id, seq<Id>>)
    ensures r.Keys == m.Keys
  {
    if parent.Some? && child.Some? && parent.value.id in m && index <= |m[parent.value.id]| then
      m[parent.value.id := InsertAt(m[parent.value.id], index, child.value.id)]
    else m
  }

  // ---------------------------------------------------------------------
  // Node objects

  /**
   * One node object of the tree, element or text leaf. `childNodes` is empty
   * and unused for a text leaf, `nodeValue` is empty and unused for an
   * element, and `accessibility` (`internal_accessibility`) is `None` for
   * the empty descriptor `{}` every new element starts with.
   */
  datatype DomNode = DomNode(
    nodeName: NodeName,
    parentNode: Option<NodeRef>,
    childNodes: seq<NodeRef>,
    taffyNode: Option<TaffyNode>,
    nodeValue: string,
    style: Styles,
    attributes: map<string, Attribute>,
    accessibility: Option<Attribute>)

  /** The node objects, keyed by identity. */
  type Nodes = map<NodeRef, DomNode>

  /** `node.parentNode = parent`. */
  function SetParent(nodes: Nodes, node: NodeRef, parent: Option<NodeRef>): (r: Nodes)
    requires node in nodes
    ensures r.Keys == nodes.Keys
  {
    nodes[node := nodes[node].(parentNode := parent)]
  }

  /** `node.childNodes = children`. */
  function SetChildren(nodes: Nodes, node: NodeRef, children: seq<NodeRef>): (r: Nodes)
    requires node in nodes
    ensures r.Keys == nodes.Keys
  {
    nodes[node := nodes[node].(childNodes := children)]
  }

  /** Setting a node's child list to what it already is changes nothing. */
  lemma SetChildrenUnchanged(nodes: Nodes, node: NodeRef)
    requires node in nodes
    ensures SetChildren(nodes, node, nodes[node].childNodes) == nodes
  {
  }

  /** The node objects after `removeChildNode(node, removeNode)`. */
  function Detach(nodes: Nodes, node: NodeRef, removeNode: NodeRef): (r: Nodes)
    requires node in nodes && removeNode in nodes
    ensures r.Keys == nodes.Keys
  {
    SetChildren(SetParent(nodes, removeNode, None), node, RemoveFirst(nodes[node].childNodes, removeNode))
  }

  /** The node objects after `child` has left its parent, if it had one (the first step of a move). */
  function Moved(nodes: Nodes, child: NodeRef): (r: Nodes)
    requires child in nodes
    requires nodes[child].parentNode.Some? ==> nodes[child].parentNode.value in nodes
    ensures r.Keys == nodes.Keys
  {
    if nodes[child].parentNode.Some? then Detach(nodes, nodes[child].parentNode.value, child) else nodes
  }

  /** A move changes no node's name and no node's handle. */
  lemma MovedKeepsNames(nodes: Nodes, child: NodeRef, n: NodeRef)
    requires child in nodes && n in nodes
    requires nodes[child].parentNode.Some? ==> nodes[child].parentNode.value in nodes
    ensures Moved(nodes, child)[n].nodeName == nodes[n].nodeName
    ensures Moved(nodes, child)[n].taffyNode == nodes[n].taffyNode
  {
    if nodes[child].parentNode.Some? {
      assert Moved(nodes, child)[n] == SetParent(nodes, child, None)[n].(childNodes := Moved(nodes, child)[n].childNodes);
    }
  }

  /**
   * The solver child lists after `removeChildNode(_, removeNode)`: the edge
   * from the handle of `removeNode`'s own parent, when both have handles.
   */
  function SolverDetached(nodes: Nodes, m: map<Id, seq<Id>>, removeNode: NodeRef): (r: map<Id, seq<Id>>)
    requires removeNode in nodes
    ensures r.Keys == m.Keys
  {
    var q := nodes[removeNode].parentNode;
    if nodes[removeNode].taffyNode.Some? && q.Some? && q.value in nodes && nodes[q.value].taffyNode.Some? &&
       nodes[q.value].taffyNode.value.id in m then
      var pid := nodes[q.value].taffyNode.value.id;
      m[pid := RemoveFirst(m[pid], nodes[removeNode].taffyNode.value.id)]
    else m
  }

  /** The solver child lists after `child` has left its parent, if it had one. */
  function SolverMoved(nodes: Nodes, m: map<Id, seq<Id>>, child: NodeRef): (r: map<Id, seq<Id>>)
    requires child in nodes
    ensures r.Keys == m.Keys
  {
    if nodes[child].parentNode.Some? then SolverDetached(nodes, m, child) else m
  }

  /**
   * The handle ids the first step of a move marks dirty: when `child`'s old
   * parent is text-bearing, the closest handle of that parent, looked up in
   * the node objects as they are once `child` has left it.
   */
  function MovedMarks(nodes: Nodes, child: NodeRef, fuel: nat): (r: set<Id>)
    requires child in nodes
    requires nodes[child].parentNode.Some? ==> nodes[child].parentNode.value in nodes
    ensures |r| <= 1
    ensures nodes[child].parentNode.None? || !IsTextBearing(nodes[nodes[child].parentNode.value].nodeName) ==> r == {}
  {
    var q := nodes[child].parentNode;
    if q.Some? && IsTextBearing(nodes[q.value].nodeName) then IdsOf(FindClosestTaffyNode(Moved(nodes, child), q, fuel)) else {}
  }

  // ---------------------------------------------------------------------
  // Well-formed node objects

  /**
   * Identities are below `next`; a parent exists and is not a text leaf; a
   * node owns a handle exactly when its name calls for one, and every
   * handle belongs to `tree` with a live id among `ids`.
   */
  ghost predicate WellFormed(nodes: Nodes, next: nat, tree: TaffyTree, ids: set<Id>) {
    && (forall n | n in nodes :: n < next)
    && (forall n | n in nodes && nodes[n].parentNode.Some? ::
          nodes[n].parentNode.value in nodes && !nodes[nodes[n].parentNode.value].nodeName.TextName?)
    && (forall n | n in nodes :: nodes[n].taffyNode.Some? <==> OwnsHandle(nodes[n].nodeName))
    && (forall n | n in nodes && nodes[n].taffyNode.Some? ::
          nodes[n].taffyNode.value.tree == tree && nodes[n].taffyNode.value.id in ids)
  }

  lemma SetParentWellFormed(nodes: Nodes, next: nat, tree: TaffyTree, ids: set<Id>, n: NodeRef, p: Option<NodeRef>)
    requires WellFormed(nodes, next, tree, ids) && n in nodes
    requires p.Some? ==> p.value in nodes && !nodes[p.value].nodeName.TextName?
    ensures WellFormed(SetParent(nodes, n, p), next, tree, ids)
  {
  }

  lemma SetChildrenWellFormed(nodes: Nodes, next: nat, tree: TaffyTree, ids: set<Id>, n: NodeRef, cs: seq<NodeRef>)
    requires WellFormed(nodes, next, tree, ids) && n in nodes
    ensures WellFormed(SetChildren(nodes, n, cs), next, tree, ids)
  {
  }

  /** A new detached node keeps the node objects well-formed, also when the solver has gained ids. */
  lemma AddNodeWellFormed(nodes: Nodes, next: nat, tree: TaffyTree, ids: set<Id>, ids': set<Id>, d: DomNode)
    requires WellFormed(nodes, next, tree, ids) && ids <= ids'
    requires d.parentNode.None? && (d.taffyNode.Some? <==> OwnsHandle(d.nodeName))
    requires d.taffyNode.Some? ==> d.taffyNode.value.tree == tree && d.taffyNode.value.id in ids'
    ensures next !in nodes
    ensures WellFormed(nodes[next := d], next + 1, tree, ids')
  {
  }

  lemma DetachWellFormed(nodes: Nodes, next: nat, tree: TaffyTree, ids: set<Id>, p: NodeRef, r: NodeRef)
    requires WellFormed(nodes, next, tree, ids) && p in nodes && r in nodes
    ensures WellFormed(Detach(nodes, p, r), next, tree, ids)
  {
    SetParentWellFormed(nodes, next, tree, ids, r, None);
    SetChildrenWellFormed(SetParent(nodes, r, None), next, tree, ids, p, RemoveFirst(nodes[p].childNodes, r));
  }

  // ---------------------------------------------------------------------
  // Consistency of parent pointers and child lists

  /** Each listed child points back at the list's owner. */
  ghost predicate ListsPointBack(nodes: Nodes) {
    forall p, c | p in nodes && c in nodes[p].childNodes :: c in nodes && nodes[c].parentNode == Some(p)
  }

  /** Each parent pointer is matched by an entry in the parent's list. */
  ghost predicate ParentsList(nodes: Nodes) {
    forall c | c in nodes && nodes[c].parentNode.Some? ::
      nodes[c].parentNode.value in nodes && c in nodes[nodes[c].parentNode.value].childNodes
  }

  /** No child list repeats a node. */
  ghost predicate ListsNoDup(nodes: Nodes) {
    forall p | p in nodes :: NoDup(nodes[p].childNodes)
  }

  /** Parent pointers and child lists describe the same edges, each once. */
  ghost predicate Linked(nodes: Nodes) {
    ListsPointBack(nodes) && ParentsList(nodes) && ListsNoDup(nodes)
  }

  /** What `Detach` does to one node: only `node`'s list and `removeNode`'s parent change. */
  lemma DetachAt(nodes: Nodes, p: NodeRef, r: NodeRef, x: NodeRef)
    requires p in nodes && r in nodes && x in nodes
    ensures Detach(nodes, p, r)[x].childNodes == if x == p then RemoveFirst(nodes[p].childNodes, r) else nodes[x].childNodes
    ensures Detach(nodes, p, r)[x].parentNode == if x == r then None else nodes[x].parentNode
  {
  }

  lemma DetachPointBack(nodes: Nodes, p: NodeRef, r: NodeRef)
    requires ListsPointBack(nodes) && p in nodes && r in nodes && NoDup(nodes[p].childNodes)
    requires nodes[r].parentNode.None? || nodes[r].parentNode == Some(p)
    ensures ListsPointBack(Detach(nodes, p, r))
  {
    var after := Detach(nodes, p, r);
    forall x | x in nodes && x != p ensures after[x].childNodes == nodes[x].childNodes {
      DetachAt(nodes, p, r, x);
    }
    forall x | x in nodes ensures after[x].parentNode == if x == r then None else nodes[x].parentNode {
      DetachAt(nodes, p, r, x);
    }
    DetachAt(nodes, p, r, p);
    RemoveFirstNoDup(nodes[p].childNodes, r);
    PointBackAfterUnlink(nodes, p, r, after);
  }

  /**
   * Any map that agrees with `nodes` except that `p`'s list loses `r` (and
   * perhaps reorders nothing else) and `r` loses its parent still has every
   * listed child pointing back.
   */
  lemma PointBackAfterUnlink(nodes: Nodes, p: NodeRef, r: NodeRef, after: Nodes)
    requires ListsPointBack(nodes) && p in nodes && r in nodes
    requires nodes[r].parentNode.None? || nodes[r].parentNode == Some(p)
    requires after.Keys == nodes.Keys
    requires forall x {:trigger after[x]} | x in nodes && x != p :: after[x].childNodes == nodes[x].childNodes
    requires forall c :: c in after[p].childNodes ==> c in nodes[p].childNodes && c != r
    requires forall x {:trigger after[x]} | x in nodes :: after[x].parentNode == if x == r then None else nodes[x].parentNode
    ensures ListsPointBack(after)
  {
    forall q, c | q in after && c in after[q].childNodes ensures c in after && after[c].parentNode == Some(q) {
      if q == p {
        assert c in nodes[q].childNodes && c != r;
      } else {
        assert c in nodes[q].childNodes;
        assert nodes[c].parentNode == Some(q);
      }
    }
  }

  lemma DetachParentsList(nodes: Nodes, p: NodeRef, r: NodeRef)
    requires ParentsList(nodes) && ListsNoDup(nodes) && p in nodes && r in nodes
    requires nodes[r].parentNode.None? || nodes[r].parentNode == Some(p)
    ensures ParentsList(Detach(nodes, p, r))
  {
    var after := Detach(nodes, p, r);
    forall c | c in after && after[c].parentNode.Some?
      ensures after[c].parentNode.value in after && c in after[after[c].parentNode.value].childNodes
    {
      DetachAt(nodes, p, r, c);
      var q := nodes[c].parentNode.value;
      DetachAt(nodes, p, r, q);
      if q == p {
        RemoveFirstNoDup(nodes[p].childNodes, r);
      }
    }
  }

  lemma DetachNoDup(nodes: Nodes, p: NodeRef, r: NodeRef)
    requires ListsNoDup(nodes) && p in nodes && r in nodes
    ensures ListsNoDup(Detach(nodes, p, r))
  {
    RemoveFirstNoDup(nodes[p].childNodes, r);
    var after := Detach(nodes, p, r);
    forall q | q in after ensures NoDup(after[q].childNodes) {
      if q != p {
        assert after[q].childNodes == nodes[q].childNodes;
      }
    }
  }

  /** Detaching `r` from its own parent `p` (or from nowhere) keeps the links consistent. */
  lemma LinkedDetach(nodes: Nodes, p: NodeRef, r: NodeRef)
    requires Linked(nodes) && p in nodes && r in nodes
    requires nodes[r].parentNode.None? || nodes[r].parentNode == Some(p)
    ensures Linked(Detach(nodes, p, r))
  {
    DetachPointBack(nodes, p, r);
    DetachParentsList(nodes, p, r);
    DetachNoDup(nodes, p, r);
  }

  /** The node objects after the detached `c` is placed at position `i` of `p`'s list. */
  function Attached(nodes: Nodes, p: NodeRef, c: NodeRef, i: nat): (r: Nodes)
    requires p in nodes && c in nodes && i <= |nodes[p].childNodes|
    ensures r.Keys == nodes.Keys
  {
    SetChildren(SetParent(nodes, c, Some(p)), p, InsertAt(nodes[p].childNodes, i, c))
  }

  /** The node objects after `c` becomes `p`'s last child (`c.parentNode = p`, then `p.childNodes.push(c)`). */
  function Appended(nodes: Nodes, p: NodeRef, c: NodeRef): (r: Nodes)
    requires p in nodes && c in nodes
    ensures r.Keys == nodes.Keys
  {
    SetChildren(SetParent(nodes, c, Some(p)), p, nodes[p].childNodes + [c])
  }

  /** Where `insertBeforeNode(p, c, before)` places `c`: the index of `before` in `p`'s list after `c` has left its parent. */
  function InsertIndex(nodes: Nodes, p: NodeRef, c: NodeRef, before: NodeRef): (i: int)
    requires p in nodes && c in nodes
    requires nodes[c].parentNode.Some? ==> nodes[c].parentNode.value in nodes
    ensures -1 <= i < |Moved(nodes, c)[p].childNodes|
  {
    IndexOf(Moved(nodes, c)[p].childNodes, before)
  }

  /**
   * The node objects after `insertBeforeNode(p, c, before)`: `c` leaves its
   * parent, then is attached at the index of `before` when `before` is
   * among `p`'s children, and at the end otherwise.
   */
  function Inserted(nodes: Nodes, p: NodeRef, c: NodeRef, before: NodeRef): (r: Nodes)
    requires p in nodes && c in nodes
    requires nodes[c].parentNode.Some? ==> nodes[c].parentNode.value in nodes
    ensures r.Keys == nodes.Keys
  {
    var moved := Moved(nodes, c);
    var i := InsertIndex(nodes, p, c, before);
    if i >= 0 then Attached(moved, p, c, i) else Appended(moved, p, c)
  }

  /** Appending is attaching at the end of the list. */
  lemma AppendedIsAttached(nodes: Nodes, p: NodeRef, c: NodeRef)
    requires p in nodes && c in nodes
    ensures Appended(nodes, p, c) == Attached(nodes, p, c, |nodes[p].childNodes|)
  {
    var s := nodes[p].childNodes;
    assert InsertAt(s, |s|, c) == s + [c];
  }

  lemma AttachedWellFormed(nodes: Nodes, next: nat, tree: TaffyTree, ids: set<Id>, p: NodeRef, c: NodeRef, i: nat)
    requires WellFormed(nodes, next, tree, ids) && p in nodes && c in nodes && !nodes[p].nodeName.TextName?
    requires i <= |nodes[p].childNodes|
    ensures WellFormed(Attached(nodes, p, c, i), next, tree, ids)
  {
    SetParentWellFormed(nodes, next, tree, ids, c, Some(p));
    SetChildrenWellFormed(SetParent(nodes, c, Some(p)), next, tree, ids, p, InsertAt(nodes[p].childNodes, i, c));
  }

  lemma AppendedWellFormed(nodes: Nodes, next: nat, tree: TaffyTree, ids: set<Id>, p: NodeRef, c: NodeRef)
    requires WellFormed(nodes, next, tree, ids) && p in nodes && c in nodes && !nodes[p].nodeName.TextName?
    ensures WellFormed(Appended(nodes, p, c), next, tree, ids)
  {
    SetParentWellFormed(nodes, next, tree, ids, c, Some(p));
    SetChildrenWellFormed(SetParent(nodes, c, Some(p)), next, tree, ids, p, nodes[p].childNodes + [c]);
  }

  /** What `Attached` does to one node: only `p`'s list and `c`'s parent change. */
  lemma AttachedAt(nodes: Nodes, p: NodeRef, c: NodeRef, i: nat, x: NodeRef)
    requires p in nodes && c in nodes && i <= |nodes[p].childNodes| && x in nodes
    ensures Attached(nodes, p, c, i)[x].childNodes == if x == p then InsertAt(nodes[p].childNodes, i, c) else nodes[x].childNodes
    ensures Attached(nodes, p, c, i)[x].parentNode == if x == c then Some(p) else nodes[x].parentNode
  {
  }

  lemma AttachPointBack(nodes: Nodes, p: NodeRef, c: NodeRef, i: nat)
    requires ListsPointBack(nodes) && p in nodes && c in nodes && nodes[c].parentNode.None?
    requires i <= |nodes[p].childNodes|
    ensures ListsPointBack(Attached(nodes, p, c, i))
  {
    var s := nodes[p].childNodes;
    var after := Attached(nodes, p, c, i);
    forall x | x in nodes && x != p ensures after[x].childNodes == nodes[x].childNodes {
      AttachedAt(nodes, p, c, i, x);
    }
    forall x | x in nodes ensures after[x].parentNode == if x == c then Some(p) else nodes[x].parentNode {
      AttachedAt(nodes, p, c, i, x);
    }
    AttachedAt(nodes, p, c, i, p);
    forall d | d in after[p].childNodes ensures d == c || d in s {
      assert d in multiset(InsertAt(s, i, c));
    }
    PointBackAfterLink(nodes, p, c, after);
  }

  /**
   * Any map that agrees with `nodes` except that `p`'s list may gain `c`, a
   * node without a parent, and `c` now points at `p`, still has every listed
   * child pointing back.
   */
  lemma PointBackAfterLink(nodes: Nodes, p: NodeRef, c: NodeRef, after: Nodes)
    requires ListsPointBack(nodes) && p in nodes && c in nodes && nodes[c].parentNode.None?
    requires after.Keys == nodes.Keys
    requires forall x {:trigger after[x]} | x in nodes && x != p :: after[x].childNodes == nodes[x].childNodes
    requires forall d :: d in after[p].childNodes ==> d == c || d in nodes[p].childNodes
    requires forall x {:trigger after[x]} | x in nodes :: after[x].parentNode == if x == c then Some(p) else nodes[x].parentNode
    ensures ListsPointBack(after)
  {
    forall q, d | q in after && d in after[q].childNodes ensures d in after && after[d].parentNode == Some(q) {
      if q != p {
        assert d in nodes[q].childNodes;
        assert nodes[d].parentNode == Some(q);
      } else if d != c {
        assert d in nodes[p].childNodes;
      }
    }
  }

  lemma AttachParentsList(nodes: Nodes, p: NodeRef, c: NodeRef, i: nat)
    requires ParentsList(nodes) && p in nodes && c in nodes && nodes[c].parentNode.None?
    requires i <= |nodes[p].childNodes|
    ensures ParentsList(Attached(nodes, p, c, i))
  {
    var s := nodes[p].childNodes;
    var after := Attached(nodes, p, c, i);
    assert multiset(after[p].childNodes) == multiset(s) + multiset{c};
    forall d | d in after && after[d].parentNode.Some?
      ensures after[d].parentNode.value in after && d in after[after[d].parentNode.value].childNodes
    {
      if d == c {
        assert d in multiset(after[p].childNodes);
      } else {
        assert after[d].parentNode == nodes[d].parentNode;
        if nodes[d].parentNode == Some(p) {
          assert d in multiset(s);
        }
      }
    }
  }

  lemma AttachNoDup(nodes: Nodes, p: NodeRef, c: NodeRef, i: nat)
    requires ListsNoDup(nodes) && ListsPointBack(nodes) && p in nodes && c in nodes && nodes[c].parentNode.None?
    requires i <= |nodes[p].childNodes|
    ensures ListsNoDup(Attached(nodes, p, c, i))
  {
    var s := nodes[p].childNodes;
    assert c !in s;
    AddFreshNoDup(s, InsertAt(s, i, c), c);
    var after := Attached(nodes, p, c, i);
    forall q | q in after ensures NoDup(after[q].childNodes) {
      if q != p {
        assert after[q].childNodes == nodes[q].childNodes;
      }
    }
  }

  /** Attaching a detached `c` at position `i` of `p`'s list keeps the links consistent. */
  lemma LinkedAttach(nodes: Nodes, p: NodeRef, c: NodeRef, i: nat)
    requires Linked(nodes) && p in nodes && c in nodes && nodes[c].parentNode.None?
    requires i <= |nodes[p].childNodes|
    ensures Linked(Attached(nodes, p, c, i))
  {
    AttachPointBack(nodes, p, c, i);
    AttachParentsList(nodes, p, c, i);
    AttachNoDup(nodes, p, c, i);
  }

  /** The first step of a move keeps the links consistent and leaves the child without a parent. */
  lemma LinkedMove(nodes: Nodes, c: NodeRef)
    requires Linked(nodes) && c in nodes
    requires nodes[c].parentNode.Some? ==> nodes[c].parentNode.value in nodes
    ensures Linked(Moved(nodes, c)) && Moved(nodes, c)[c].parentNode.None?
  {
    if nodes[c].parentNode.Some? {
      LinkedDetach(nodes, nodes[c].parentNode.value, c);
      DetachAt(nodes, nodes[c].parentNode.value, c, c);
    }
  }

  /**
   * `appendChildNode(p, c)` on consistent links: the links stay consistent,
   * `c` points at `p` and is the last entry of `p`'s list, and `p`'s other
   * entries are those it had once `c` had left its old parent.
   */
  lemma LinkedAppend(nodes: Nodes, p: NodeRef, c: NodeRef)
    requires Linked(nodes) && p in nodes && c in nodes
    requires nodes[c].parentNode.Some? ==> nodes[c].parentNode.value in nodes
    ensures Linked(Appended(Moved(nodes, c), p, c))
    ensures Appended(Moved(nodes, c), p, c)[c].parentNode == Some(p)
    ensures var after := Appended(Moved(nodes, c), p, c)[p].childNodes;
            |after| > 0 && after[|after| - 1] == c && after[..|after| - 1] == Moved(nodes, c)[p].childNodes
  {
    var moved := Moved(nodes, c);
    LinkedMove(nodes, c);
    AppendedIsAttached(moved, p, c);
    LinkedAttach(moved, p, c, |moved[p].childNodes|);
  }

  /**
   * `insertBeforeNode(p, c, before)` on consistent links: the links stay
   * consistent, `c` points at `p`, and it sits immediately in front of
   * `before` when `before` was among `p`'s children, at the end otherwise.
   */
  lemma LinkedInsert(nodes: Nodes, p: NodeRef, c: NodeRef, before: NodeRef)
    requires Linked(nodes) && p in nodes && c in nodes
    requires nodes[c].parentNode.Some? ==> nodes[c].parentNode.value in nodes
    ensures Linked(Inserted(nodes, p, c, before))
    ensures Inserted(nodes, p, c, before)[c].parentNode == Some(p)
    ensures var after := Inserted(nodes, p, c, before)[p].childNodes;
            var i := InsertIndex(nodes, p, c, before);
            if i >= 0 then i + 1 < |after| && after[i] == c && after[i + 1] == before
            else |after| > 0 && after[|after| - 1] == c
  {
    var moved := Moved(nodes, c);
    LinkedMove(nodes, c);
    var i := InsertIndex(nodes, p, c, before);
    if i >= 0 {
      LinkedAttach(moved, p, c, i);
    } else {
      AppendedIsAttached(moved, p, c);
      LinkedAttach(moved, p, c, |moved[p].childNodes|);
    }
  }

  // ---------------------------------------------------------------------
  // The closest handle

  ghost predicate HasParent(nodes: Nodes, n: NodeRef) {
    n in nodes && nodes[n].parentNode.Some?
  }

  ghost predicate HasHandle(nodes: Nodes, n: NodeRef) {
    n in nodes && nodes[n].taffyNode.Some?
  }

  /** The `k`-th node up the parent pointers from `x` (`x` itself for `k == 0`). */
  ghost function Ancestor(nodes: Nodes, x: NodeRef, k: nat): Option<NodeRef>
    decreases k
  {
    if k == 0 then Some(x)
    else if HasParent(nodes, x) then Ancestor(nodes, nodes[x].parentNode.value, k - 1)
    else None
  }

  /**
   * The `k`-th ancestor of `x` is the nearest one that owns a handle among
   * the ancestors that have a parent: it and all nearer ones have a parent,
   * and none of the nearer ones has a handle.
   */
  ghost predicate NearestOwnerAt(nodes: Nodes, x: NodeRef, k: nat) {
    && Ancestor(nodes, x, k).Some? && HasParent(nodes, Ancestor(nodes, x, k).value)
    && HasHandle(nodes, Ancestor(nodes, x, k).value)
    && forall j | 0 <= j < k ::
         Ancestor(nodes, x, j).Some? && HasParent(nodes, Ancestor(nodes, x, j).value) &&
         !HasHandle(nodes, Ancestor(nodes, x, j).value)
  }

  /**
   * `findClosestTaffyNode(node)`: nothing for a node without a parent;
   * otherwise the node's own handle, or else its parent's closest one.
   * `fuel` bounds the walk up the parent pointers.
   */
  function FindClosestTaffyNode(nodes: Nodes, node: Option<NodeRef>, fuel: nat): (r: Option<TaffyNode>)
    ensures node.None? || node.value !in nodes || nodes[node.value].parentNode.None? ==> r.None?
    ensures r.Some? ==> exists n | n in nodes :: nodes[n].taffyNode == r
    decreases fuel
  {
    if node.None? || node.value !in nodes || nodes[node.value].parentNode.None? then None
    else if nodes[node.value].taffyNode.Some? then nodes[node.value].taffyNode
    else if fuel == 0 then None
    else FindClosestTaffyNode(nodes, nodes[node.value].parentNode, fuel - 1)
  }

  /** `FindClosestTaffyNode` finds exactly the handle of the nearest owning ancestor within `fuel` steps. */
  lemma {:induction false} ClosestIsNearestOwner(nodes: Nodes, x: NodeRef, fuel: nat)
    ensures forall k | 0 <= k <= fuel && NearestOwnerAt(nodes, x, k) ::
              FindClosestTaffyNode(nodes, Some(x), fuel) == nodes[Ancestor(nodes, x, k).value].taffyNode
    ensures FindClosestTaffyNode(nodes, Some(x), fuel).Some? ==>
              exists k | 0 <= k <= fuel :: NearestOwnerAt(nodes, x, k) &&
                FindClosestTaffyNode(nodes, Some(x), fuel) == nodes[Ancestor(nodes, x, k).value].taffyNode
    decreases fuel
  {
    assert Ancestor(nodes, x, 0) == Some(x);
    if HasParent(nodes, x) && !HasHandle(nodes, x) && fuel > 0 {
      var y := nodes[x].parentNode.value;
      ClosestIsNearestOwner(nodes, y, fuel - 1);
      forall k | 0 <= k <= fuel && NearestOwnerAt(nodes, x, k)
        ensures FindClosestTaffyNode(nodes, Some(x), fuel) == nodes[Ancestor(nodes, x, k).value].taffyNode
      {
        assert k != 0;
        assert Ancestor(nodes, x, k) == Ancestor(nodes, y, k - 1);
        assert NearestOwnerAt(nodes, y, k - 1) by {
          forall j | 0 <= j < k - 1
            ensures Ancestor(nodes, y, j).Some? && HasParent(nodes, Ancestor(nodes, y, j).value) &&
                    !HasHandle(nodes, Ancestor(nodes, y, j).value)
          {
            assert Ancestor(nodes, x, j + 1) == Ancestor(nodes, y, j);
          }
        }
      }
      if FindClosestTaffyNode(nodes, Some(x), fuel).Some? {
        var k :| 0 <= k <= fuel - 1 && NearestOwnerAt(nodes, y, k) &&
                 FindClosestTaffyNode(nodes, Some(y), fuel - 1) == nodes[Ancestor(nodes, y, k).value].taffyNode;
        assert Ancestor(nodes, x, k + 1) == Ancestor(nodes, y, k);
        assert NearestOwnerAt(nodes, x, k + 1) by {
          forall j | 0 <= j < k + 1
            ensures Ancestor(nodes, x, j).Some? && HasParent(nodes, Ancestor(nodes, x, j).value) &&
                    !HasHandle(nodes, Ancestor(nodes, x, j).value)
          {
            if j > 0 {
              assert Ancestor(nodes, x, j) == Ancestor(nodes, y, j - 1);
            }
          }
        }
      }
    }
  }
}
