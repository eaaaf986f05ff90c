/**
  The upward directory walk that keeps the source root and the worker root apart.
 */
module RootIsolation {
  import opened Common

  /** Device and inode. */
  type Dir = nat

  const MAX_DEPTH := 1024

  /** A finite directory tree: every directory has a parent one level up; the root, alone, is
      its own parent at level zero. */
  datatype Tree = Tree(parent: map<Dir, Dir>, level: map<Dir, nat>)

  predicate NodeOk(t: Tree, d: Dir)
    requires d in t.parent && t.level.Keys == t.parent.Keys
  {
    && t.parent[d] in t.parent
    && (t.level[d] > 0 ==> t.level[t.parent[d]] == t.level[d] - 1)
    && (t.level[d] == 0 <==> t.parent[d] == d)
  }

  predicate IsTree(t: Tree) {
    && t.level.Keys == t.parent.Keys
    && forall d {:trigger NodeOk(t, d)} :: d in t.parent ==> NodeOk(t, d)
  }

  /** `k` steps up. */
  function Up(t: Tree, d: Dir, k: nat): (r: Dir)
    requires IsTree(t) && d in t.parent
    ensures r in t.parent
  {
    if k == 0 then d
    else
      var below := Up(t, d, k - 1);
      assert NodeOk(t, below);
      t.parent[below]
  }

  ghost predicate AtOrBelow(t: Tree, d: Dir, ancestor: Dir)
    requires IsTree(t) && d in t.parent
  {
    exists k :: 0 <= k <= t.level[d] && Up(t, d, k) == ancestor
  }

  lemma {:induction false} LevelOfUp(t: Tree, d: Dir, k: nat)
    requires IsTree(t) && d in t.parent
    ensures t.level[Up(t, d, k)] == if k <= t.level[d] then t.level[d] - k else 0
  {
    if k > 0 {
      LevelOfUp(t, d, k - 1);
      assert NodeOk(t, Up(t, d, k - 1));
    }
  }

  lemma {:induction false} UpAdds(t: Tree, d: Dir, j: nat, k: nat)
    requires IsTree(t) && d in t.parent
    ensures Up(t, d, j + k) == Up(t, Up(t, d, j), k)
  {
    if k > 0 {
      UpAdds(t, d, j, k - 1);
    }
  }

  /** `None` is the raised error: a failing descriptor operation or the depth limit. */
  method IsAncestor(t: Tree, ancestor: Dir, descendant: Dir, troubles: set<nat>) returns (r: Option<bool>)
    requires IsTree(t) && descendant in t.parent
    ensures r.Some? && r.value ==> AtOrBelow(t, descendant, ancestor)
    ensures r.Some? && !r.value ==> !AtOrBelow(t, descendant, ancestor) && t.level[descendant] < MAX_DEPTH
    ensures troubles == {} && t.level[descendant] < MAX_DEPTH ==> r.Some?
    ensures troubles == {} && r.None? ==> forall k :: 0 <= k < MAX_DEPTH ==> Up(t, descendant, k) != ancestor
  {
    var current := descendant;
    for i := 0 to MAX_DEPTH
      invariant current == Up(t, descendant, i) && i <= t.level[descendant]
      invariant forall k :: 0 <= k < i ==> Up(t, descendant, k) != ancestor
    {
      if i in troubles {
        return None;
      }
      LevelOfUp(t, descendant, i);
      if current == ancestor {
        return Some(true);
      }
      assert NodeOk(t, current);
      var parent := t.parent[current];
      if parent == current {
        return Some(false);
      }
      current := parent;
    }
    return None;
  }

  /** No directory lies at or below both. */
  ghost predicate Disjoint(t: Tree, a: Dir, b: Dir)
    requires IsTree(t)
  {
    forall d :: d in t.parent ==> !(AtOrBelow(t, d, a) && AtOrBelow(t, d, b))
  }

  /** Two directories share a descendant exactly when one of them is at or below the other. */
  lemma DisjointExactly(t: Tree, a: Dir, b: Dir)
    requires IsTree(t) && a in t.parent && b in t.parent
    ensures Disjoint(t, a, b) <==> !AtOrBelow(t, a, b) && !AtOrBelow(t, b, a)
  {
    assert Up(t, a, 0) == a && Up(t, b, 0) == b;
    if !AtOrBelow(t, a, b) && !AtOrBelow(t, b, a) {
      forall d | d in t.parent ensures !(AtOrBelow(t, d, a) && AtOrBelow(t, d, b)) {
        if AtOrBelow(t, d, a) && AtOrBelow(t, d, b) {
          var i :| 0 <= i <= t.level[d] && Up(t, d, i) == a;
          var j :| 0 <= j <= t.level[d] && Up(t, d, j) == b;
          MeetingPoint(t, d, i, j);
          assert false;
        }
      }
    }
    if AtOrBelow(t, a, b) {
      assert AtOrBelow(t, a, a);
    }
    if AtOrBelow(t, b, a) {
      assert AtOrBelow(t, b, b);
    }
  }

  /** Of two ancestors of one directory, one is at or below the other. */
  lemma MeetingPoint(t: Tree, d: Dir, i: nat, j: nat)
    requires IsTree(t) && d in t.parent && i <= t.level[d] && j <= t.level[d]
    ensures i <= j ==> AtOrBelow(t, Up(t, d, i), Up(t, d, j))
    ensures j <= i ==> AtOrBelow(t, Up(t, d, j), Up(t, d, i))
  {
    LevelOfUp(t, d, i);
    LevelOfUp(t, d, j);
    if i <= j {
      UpAdds(t, d, i, j - i);
    }
    if j <= i {
      UpAdds(t, d, j, i - j);
    }
  }

  /** The two-way check passes only for disjoint roots; without descriptor trouble and within
      the depth limit it passes for all of them. */
  method RequireDisjointRoots(t: Tree, source: Dir, worker: Dir, troubles: set<nat>) returns (ok: bool)
    requires IsTree(t) && source in t.parent && worker in t.parent
    ensures ok ==> Disjoint(t, source, worker)
    ensures troubles == {} && t.level[source] < MAX_DEPTH && t.level[worker] < MAX_DEPTH ==>
              (ok <==> Disjoint(t, source, worker))
  {
    DisjointExactly(t, source, worker);
    var below := IsAncestor(t, source, worker, troubles);
    if below.None? || below.value {
      return false;
    }
    var above := IsAncestor(t, worker, source, troubles);
    return above.Some? && !above.value;
  }
}
