/**
 The two walks over the department tree: from a department up to its root, and from a department down
 to everything below it. Both tolerate cycles and parents without a row, and each undoes the other.
 */
module Departments {
  import opened Common

  type DeptId = nat

  datatype Row = Row(id: DeptId, parent: Option<DeptId>)

  /** The rows of the department table, in whatever order the queries return them. */
  type Table = seq<Row>

  /** The identifier is the table's primary key. */
  ghost predicate KeysUnique(t: Table) {
    forall i, j :: 0 <= i < j < |t| ==> t[i].id != t[j].id
  }

  /** The parent column of a department's row, None when there is no row. */
  function ParentOf(t: Table, id: DeptId): Option<DeptId> {
    if t == [] then None else if t[0].id == id then t[0].parent else ParentOf(t[1..], id)
  }

  function ChildrenOf(t: Table, id: DeptId): seq<DeptId> {
    if t == [] then []
    else (if t[0].parent == Some(id) then [t[0].id] else []) + ChildrenOf(t[1..], id)
  }

  /** Every department the table mentions, as a row or as a parent. */
  function Known(t: Table): set<DeptId> {
    if t == [] then {}
    else {t[0].id} + (if t[0].parent.Some? then {t[0].parent.value} else {}) + Known(t[1..])
  }

  lemma {:induction false} ParentKnown(t: Table, id: DeptId)
    ensures ParentOf(t, id).Some? ==> id in Known(t) && ParentOf(t, id).value in Known(t)
  {
    if t != [] {
      ParentKnown(t[1..], id);
    }
  }

  lemma {:induction false} ChildrenKnown(t: Table, id: DeptId)
    ensures forall c :: c in ChildrenOf(t, id) ==> c in Known(t)
  {
    if t != [] {
      ChildrenKnown(t[1..], id);
    }
  }

  /** A department is among the children of exactly its parent. */
  lemma {:induction false} ChildIffParent(t: Table, child: DeptId, parent: DeptId)
    requires KeysUnique(t)
    ensures child in ChildrenOf(t, parent) <==> ParentOf(t, child) == Some(parent)
  {
    if t != [] {
      ChildIffParent(t[1..], child, parent);
      if t[0].id == child {
        NoOtherRow(t[1..], child);
      }
    }
  }

  lemma {:induction false} NoOtherRow(t: Table, id: DeptId)
    requires forall i :: 0 <= i < |t| ==> t[i].id != id
    ensures ParentOf(t, id).None?
  {
    if t != [] {
      NoOtherRow(t[1..], id);
    }
  }

  // ---------------------------------------------------------------- reachability

  /** The department n steps above x. */
  function Above(t: Table, x: DeptId, n: nat): Option<DeptId>
    decreases n
  {
    if n == 0 then Some(x)
    else
      match ParentOf(t, x)
      case None => None
      case Some(p) => Above(t, p, n - 1)
  }

  /** d is x or lies above x. */
  ghost predicate IsAncestor(t: Table, d: DeptId, x: DeptId) {
    exists n: nat :: Above(t, x, n) == Some(d)
  }

  /** A walk down the child lists, from the first element to the last. */
  ghost predicate DownPath(t: Table, path: seq<DeptId>) {
    path != [] && forall i :: 0 <= i < |path| - 1 ==> path[i + 1] in ChildrenOf(t, path[i])
  }

  /** x is d or lies below d. */
  ghost predicate IsDescendant(t: Table, x: DeptId, d: DeptId) {
    exists path :: DownPath(t, path) && path[0] == d && path[|path| - 1] == x
  }

  lemma {:induction false} AboveGivesPath(t: Table, x: DeptId, n: nat) returns (path: seq<DeptId>)
    requires KeysUnique(t) && Above(t, x, n).Some?
    ensures DownPath(t, path) && path[0] == Above(t, x, n).value && path[|path| - 1] == x
    decreases n
  {
    hide ParentOf, ChildrenOf;
    if n == 0 {
      path := [x];
    } else {
      var p := ParentOf(t, x).value;
      var upper := AboveGivesPath(t, p, n - 1);
      ChildIffParent(t, x, p);
      PathExtended(t, upper, x);
      path := upper + [x];
    }
  }

  lemma {:induction false} PathGivesAbove(t: Table, path: seq<DeptId>)
    requires KeysUnique(t) && DownPath(t, path)
    ensures Above(t, path[|path| - 1], |path| - 1) == Some(path[0])
    decreases |path|
  {
    if |path| > 1 {
      var front := path[..|path| - 1];
      PathGivesAbove(t, front);
      assert path[|path| - 2 + 1] in ChildrenOf(t, path[|path| - 2]);
      ChildIffParent(t, path[|path| - 1], path[|path| - 2]);
    }
  }

  /** Going up and going down are the same relation read in opposite directions. */
  lemma UpIffDown(t: Table, d: DeptId, x: DeptId)
    requires KeysUnique(t)
    ensures IsAncestor(t, d, x) <==> IsDescendant(t, x, d)
  {
    if IsAncestor(t, d, x) {
      var n: nat :| Above(t, x, n) == Some(d);
      var path := AboveGivesPath(t, x, n);
    }
    if IsDescendant(t, x, d) {
      var path :| DownPath(t, path) && path[0] == d && path[|path| - 1] == x;
      PathGivesAbove(t, path);
    }
  }

  // ---------------------------------------------------------------- the ancestor walk

  function AncestorsFrom(t: Table, current: Option<DeptId>, seen: set<DeptId>): seq<DeptId>
    decreases |Known(t) - seen|, if current.Some? then 1 else 0
  {
    if current.None? || current.value in seen then []
    else
      var id := current.value;
      ParentKnown(t, id);
      assert id in Known(t) ==> Known(t) - (seen + {id}) < Known(t) - seen by {
        assert id in Known(t) ==> id in Known(t) - seen;
      }
      Shrinks(Known(t), seen, id);
      [id] + AncestorsFrom(t, ParentOf(t, id), seen + {id})
  }

  lemma Shrinks(known: set<DeptId>, seen: set<DeptId>, id: DeptId)
    ensures |known - (seen + {id})| <= |known - seen|
    ensures id in known && id !in seen ==> |known - (seen + {id})| < |known - seen|
  {
    assert known - (seen + {id}) == (known - seen) - {id};
  }

  function Ancestors(t: Table, start: Option<DeptId>): seq<DeptId> {
    AncestorsFrom(t, start, {})
  }

  /** get_department_ancestor_ids */
  method GetDepartmentAncestorIds(t: Table, start: Option<DeptId>) returns (ids: seq<DeptId>)
    ensures ids == Ancestors(t, start)
  {
    ids := [];
    var current := start;
    var seen: set<DeptId> := {};
    while current.Some? && current.value !in seen
      invariant ids + AncestorsFrom(t, current, seen) == Ancestors(t, start)
      decreases |Known(t) - seen|, if current.Some? then 1 else 0
    {
      hide Known;
      var id := current.value;
      Shrinks(Known(t), seen, id);
      ParentKnown(t, id);
      assert AncestorsFrom(t, current, seen) == [id] + AncestorsFrom(t, ParentOf(t, id), seen + {id});
      seen := seen + {id};
      ids := ids + [id];
      current := ParentOf(t, id);
    }
  }

  /** What the walk has still to return: the chain above current, up to the first department seen. */
  lemma {:induction false} AncestorsFromChain(t: Table, current: Option<DeptId>, seen: set<DeptId>)
    ensures var ids := AncestorsFrom(t, current, seen);
      && (ids != [] ==> current == Some(ids[0]))
      && (forall i :: 0 <= i < |ids| ==> ids[i] !in seen)
      && NoDuplicates(ids)
      && (forall i :: 0 <= i < |ids| - 1 ==> ParentOf(t, ids[i]) == Some(ids[i + 1]))
      && (ids != [] ==>
            var top := ParentOf(t, ids[|ids| - 1]);
            top.None? || top.value in seen || top.value in ids)
    decreases |Known(t) - seen|, if current.Some? then 1 else 0
  {
    hide ParentOf, Known;
    if current.Some? && current.value !in seen {
      var id := current.value;
      Shrinks(Known(t), seen, id);
      ParentKnown(t, id);
      var rest := AncestorsFrom(t, ParentOf(t, id), seen + {id});
      AncestorsFromChain(t, ParentOf(t, id), seen + {id});
      assert AncestorsFrom(t, current, seen) == [id] + rest;
      hide AncestorsFrom;
      var ids := [id] + rest;
      assert forall i :: 0 < i < |ids| ==> ids[i] == rest[i - 1];
      assert forall x :: x in rest ==> x in ids;
    }
  }

  lemma {:induction false} ChainIsAbove(t: Table, ids: seq<DeptId>, i: nat)
    requires i < |ids| && forall k :: 0 <= k < |ids| - 1 ==> ParentOf(t, ids[k]) == Some(ids[k + 1])
    ensures Above(t, ids[0], i) == Some(ids[i])
  {
    if i > 0 {
      assert forall k :: 0 <= k < |ids[1..]| - 1 ==> ParentOf(t, ids[1..][k]) == Some(ids[1..][k + 1]) by {
        forall k | 0 <= k < |ids[1..]| - 1
          ensures ParentOf(t, ids[1..][k]) == Some(ids[1..][k + 1])
        {
          assert ParentOf(t, ids[k + 1]) == Some(ids[k + 1 + 1]);
        }
      }
      ChainIsAbove(t, ids[1..], i - 1);
      assert ParentOf(t, ids[0]) == Some(ids[0 + 1]);
    }
  }

  /** A chain whose last parent is missing or in the chain holds everything above its first element. */
  lemma {:induction false} ClosedChain(t: Table, ids: seq<DeptId>, i: nat, n: nat)
    requires i < |ids|
    requires forall k :: 0 <= k < |ids| - 1 ==> ParentOf(t, ids[k]) == Some(ids[k + 1])
    requires var top := ParentOf(t, ids[|ids| - 1]); top.None? || top.value in ids
    ensures Above(t, ids[i], n).Some? ==> Above(t, ids[i], n).value in ids
    decreases n
  {
    if n > 0 && ParentOf(t, ids[i]).Some? {
      var p := ParentOf(t, ids[i]).value;
      assert p in ids by {
        if i < |ids| - 1 {
          assert p == ids[i + 1];
        }
      }
      var j :| 0 <= j < |ids| && ids[j] == p;
      ClosedChain(t, ids, j, n - 1);
    }
  }

  /** The walk returns, each once, exactly the departments at or above the one it starts from. */
  lemma AncestorsExact(t: Table, x: DeptId, d: DeptId)
    ensures NoDuplicates(Ancestors(t, Some(x)))
    ensures d in Ancestors(t, Some(x)) <==> IsAncestor(t, d, x)
  {
    var ids := Ancestors(t, Some(x));
    AncestorsFromChain(t, Some(x), {});
    assert ids != [] && ids[0] == x;
    if d in ids {
      var i :| 0 <= i < |ids| && ids[i] == d;
      ChainIsAbove(t, ids, i);
    }
    if IsAncestor(t, d, x) {
      var n: nat :| Above(t, x, n) == Some(d);
      ClosedChain(t, ids, 0, n);
    }
  }

  // ---------------------------------------------------------------- the subtree walk

  function SubtreeFrom(t: Table, queue: seq<DeptId>, seen: set<DeptId>, universe: set<DeptId>): seq<DeptId>
    requires Known(t) <= universe && forall i :: 0 <= i < |queue| ==> queue[i] in universe
    decreases |universe - seen|, |queue|
  {
    if queue == [] then []
    else
      var id := queue[0];
      if id in seen then SubtreeFrom(t, queue[1..], seen, universe)
      else
        ChildrenKnown(t, id);
        Shrinks(universe, seen, id);
        [id] + SubtreeFrom(t, queue[1..] + ChildrenOf(t, id), seen + {id}, universe)
  }

  function Subtree(t: Table, root: Option<DeptId>): seq<DeptId> {
    if root.None? then [] else SubtreeFrom(t, [root.value], {}, Known(t) + {root.value})
  }

  /** get_department_subtree_ids */
  method GetDepartmentSubtreeIds(t: Table, root: Option<DeptId>) returns (ids: seq<DeptId>)
    ensures ids == Subtree(t, root)
  {
    ids := [];
    if root.None? {
      return;
    }
    ghost var universe := Known(t) + {root.value};
    hide Known, ChildrenOf;
    var queue := [root.value];
    var seen: set<DeptId> := {};
    while queue != []
      invariant forall i :: 0 <= i < |queue| ==> queue[i] in universe
      invariant ids + SubtreeFrom(t, queue, seen, universe) == Subtree(t, root)
      decreases |universe - seen|, |queue|
    {
      var id := queue[0];
      if id in seen {
        queue := queue[1..];
        continue;
      }
      SubtreeStep(t, queue, seen, universe);
      hide SubtreeFrom;
      queue := queue[1..];
      seen := seen + {id};
      ids := ids + [id];
      queue := queue + ChildrenOf(t, id);
    }
  }

  lemma {:induction false} SubtreeStep(t: Table, queue: seq<DeptId>, seen: set<DeptId>, universe: set<DeptId>)
    requires Known(t) <= universe && forall i :: 0 <= i < |queue| ==> queue[i] in universe
    requires queue != [] && queue[0] !in seen
    ensures var id := queue[0];
      var longer := queue[1..] + ChildrenOf(t, id);
      && (forall i :: 0 <= i < |longer| ==> longer[i] in universe)
      && SubtreeFrom(t, queue, seen, universe) == [id] + SubtreeFrom(t, longer, seen + {id}, universe)
      && |universe - (seen + {id})| < |universe - seen|
  {
    ChildrenKnown(t, queue[0]);
    Shrinks(universe, seen, queue[0]);
  }

  /** Everything seen has its children seen or queued. */
  ghost predicate Frontier(t: Table, queue: seq<DeptId>, seen: set<DeptId>) {
    forall p, c :: p in seen && c in ChildrenOf(t, p) ==> c in seen || c in queue
  }

  lemma FrontierStep(t: Table, queue: seq<DeptId>, seen: set<DeptId>)
    requires queue != [] && Frontier(t, queue, seen)
    ensures queue[0] in seen ==> Frontier(t, queue[1..], seen)
    ensures queue[0] !in seen ==> Frontier(t, queue[1..] + ChildrenOf(t, queue[0]), seen + {queue[0]})
  {
    assert forall c :: c in queue ==> c == queue[0] || c in queue[1..];
  }

  /** The result, with what was seen before, is closed under children, and holds the queue. */
  lemma {:induction false} SubtreeClosed(t: Table, queue: seq<DeptId>, seen: set<DeptId>, universe: set<DeptId>)
    requires Known(t) <= universe && forall i :: 0 <= i < |queue| ==> queue[i] in universe
    requires Frontier(t, queue, seen)
    ensures var all := seen + Elements(SubtreeFrom(t, queue, seen, universe));
      && (forall q :: q in queue ==> q in all)
      && Frontier(t, [], all)
    decreases |universe - seen|, |queue|
  {
    if queue != [] {
      var id := queue[0];
      FrontierStep(t, queue, seen);
      assert forall c :: c in queue ==> c == id || c in queue[1..];
      if id in seen {
        SubtreeClosed(t, queue[1..], seen, universe);
      } else {
        ChildrenKnown(t, id);
        Shrinks(universe, seen, id);
        var rest := SubtreeFrom(t, queue[1..] + ChildrenOf(t, id), seen + {id}, universe);
        SubtreeClosed(t, queue[1..] + ChildrenOf(t, id), seen + {id}, universe);
        assert SubtreeFrom(t, queue, seen, universe) == [id] + rest;
        assert seen + Elements([id] + rest) == seen + {id} + Elements(rest);
      }
    }
  }

  function Elements(s: seq<DeptId>): set<DeptId> {
    set x | x in s
  }

  /** Every result was queued or is reached from the queue, and is new. */
  lemma {:induction false} SubtreeSound(t: Table, queue: seq<DeptId>, seen: set<DeptId>, universe: set<DeptId>,
                                        root: DeptId)
    requires Known(t) <= universe && forall i :: 0 <= i < |queue| ==> queue[i] in universe
    requires forall q :: q in queue ==> IsDescendant(t, q, root)
    ensures var ids := SubtreeFrom(t, queue, seen, universe);
      && (forall x :: x in ids ==> IsDescendant(t, x, root) && x !in seen)
      && NoDuplicates(ids)
    decreases |universe - seen|, |queue|
  {
    hide Known, ChildrenOf, IsDescendant;
    if queue != [] {
      var id := queue[0];
      if id in seen {
        SubtreeSound(t, queue[1..], seen, universe, root);
      } else {
        ChildrenKnown(t, id);
        Shrinks(universe, seen, id);
        forall c | c in ChildrenOf(t, id)
          ensures IsDescendant(t, c, root)
        {
          DescendantStep(t, id, c, root);
        }
        SubtreeSound(t, queue[1..] + ChildrenOf(t, id), seen + {id}, universe, root);
      }
    }
  }

  lemma DescendantStep(t: Table, x: DeptId, c: DeptId, root: DeptId)
    requires IsDescendant(t, x, root) && c in ChildrenOf(t, x)
    ensures IsDescendant(t, c, root)
  {
    hide ChildrenOf;
    var path :| DownPath(t, path) && path[0] == root && path[|path| - 1] == x;
    PathExtended(t, path, c);
  }

  lemma PathExtended(t: Table, path: seq<DeptId>, c: DeptId)
    requires DownPath(t, path) && c in ChildrenOf(t, path[|path| - 1])
    ensures DownPath(t, path + [c])
  {
    hide ChildrenOf;
    var longer := path + [c];
    forall i | 0 <= i < |longer| - 1
      ensures longer[i + 1] in ChildrenOf(t, longer[i])
    {
      if i < |path| - 1 {
        assert path[i + 1] in ChildrenOf(t, path[i]);
      }
    }
  }

  lemma {:induction false} PathStaysClosed(t: Table, path: seq<DeptId>, all: set<DeptId>)
    requires DownPath(t, path) && path[0] in all && Frontier(t, [], all)
    ensures path[|path| - 1] in all
    decreases |path|
  {
    if |path| > 1 {
      assert path[0 + 1] in ChildrenOf(t, path[0]);
      forall i | 0 <= i < |path[1..]| - 1
        ensures path[1..][i + 1] in ChildrenOf(t, path[1..][i])
      {
        assert path[i + 1 + 1] in ChildrenOf(t, path[i + 1]);
      }
      PathStaysClosed(t, path[1..], all);
    }
  }

  /** The walk returns, each once, exactly the departments at or below the one it starts from. */
  lemma SubtreeExact(t: Table, d: DeptId, x: DeptId)
    ensures NoDuplicates(Subtree(t, Some(d)))
    ensures x in Subtree(t, Some(d)) <==> IsDescendant(t, x, d)
  {
    var universe := Known(t) + {d};
    var ids := Subtree(t, Some(d));
    assert DownPath(t, [d]) && [d][0] == d;
    SubtreeSound(t, [d], {}, universe, d);
    SubtreeClosed(t, [d], {}, universe);
    if IsDescendant(t, x, d) {
      var path :| DownPath(t, path) && path[0] == d && path[|path| - 1] == x;
      assert d in [d];
      PathStaysClosed(t, path, {} + Elements(ids));
    }
  }

  /**
   Duality: on any table, cycles and missing parents included, one department is among another's
   ancestors exactly when the other is in its subtree.
   */
  lemma Duality(t: Table, d: DeptId, x: DeptId)
    requires KeysUnique(t)
    ensures d in Ancestors(t, Some(x)) <==> x in Subtree(t, Some(d))
  {
    AncestorsExact(t, x, d);
    SubtreeExact(t, d, x);
    UpIffDown(t, d, x);
  }
}
