/** What creating, moving and deleting a folder do to the hierarchy. */
module FolderChanges {
  import opened Wrappers
  import opened FolderForest

  // ---------------------------------------------------------------------------
  // Moving
  // ---------------------------------------------------------------------------

  /** How many folders lie on the way from the new parent to the root. */
  ghost function ParentDepth(fs: Folders, user: UserId, parent: Option<FolderId>): nat {
    if parent.Some? then |AncestorChain(fs, user, parent.value, RECURSION_LIMIT)| else 0
  }

  lemma ChainOf(fs: Folders, user: UserId, id: FolderId, k: nat)
    requires Hierarchy(fs) && OwnedBy(fs, user, id)
    ensures var chain := AncestorChain(fs, user, id, RECURSION_LIMIT);
            (Up(fs, id, k).Some? <==> k < |chain|) && (k < |chain| ==> chain[k] == Up(fs, id, k).value)
  {
    UpEnds(fs, id, MAX_FOLDER_DEPTH, RECURSION_LIMIT);
    ChainIsWalk(fs, user, id, RECURSION_LIMIT, k);
  }

  /** `id` is not on the way from `p` to the root exactly when the chain query does not return it. */
  lemma ChainMembers(fs: Folders, user: UserId, p: FolderId, id: FolderId)
    requires Hierarchy(fs) && OwnedBy(fs, user, p)
    ensures id in AncestorChain(fs, user, p, RECURSION_LIMIT) <==> exists k: nat :: Up(fs, p, k) == Some(id)
  {
    var chain := AncestorChain(fs, user, p, RECURSION_LIMIT);
    if id in chain {
      var k :| 0 <= k < |chain| && chain[k] == id;
      ChainOf(fs, user, p, k);
      assert Up(fs, p, k) == Some(id);
    }
    if k: nat :| Up(fs, p, k) == Some(id) {
      ChainOf(fs, user, p, k);
    }
  }

  /** In a hierarchy a folder is met at most once on the way up. */
  lemma MetOnce(fs: Folders, y: FolderId, id: FolderId, i: nat, j: nat)
    requires Acyclic(fs) && id in fs && i < j && Up(fs, y, i) == Some(id)
    ensures Up(fs, y, j) != Some(id)
  {
    UpAdd(fs, y, i, j - i);
  }

  /** Moving a folder to itself or under one of its descendants closes a cycle. */
  lemma MoveUnderSelfCloses(fs: Folders, id: FolderId, p: FolderId, m: nat)
    requires Acyclic(fs) && id in fs && Up(fs, p, m) == Some(id)
    ensures Ancestor(MoveTo(fs, id, Some(p)), id, id)
  {
    var gs := MoveTo(fs, id, Some(p));
    forall i: nat | i < m
      ensures Up(fs, p, i) != Some(id)
    {
      if Up(fs, p, i) == Some(id) {
        MetOnce(fs, p, id, i, m);
      }
    }
    UpFrame(fs, gs, id, p, m);
    assert Up(gs, id, m + 1) == Up(gs, p, m);
  }

  /** The walk from a folder `k` steps under the moved one, past the moved one. */
  lemma MovedWalk(fs: Folders, user: UserId, id: FolderId, p: Option<FolderId>, y: FolderId, k: nat, j: nat)
    requires Hierarchy(fs) && OwnedBy(fs, user, id) && Up(fs, y, k) == Some(id)
    requires p.Some? ==> OwnedBy(fs, user, p.value) && forall i: nat :: Up(fs, p.value, i) != Some(id)
    ensures Up(MoveTo(fs, id, p), y, k + 1 + j).None? <==> ParentDepth(fs, user, p) <= j
  {
    var gs := MoveTo(fs, id, p);
    forall i: nat | i < k
      ensures Up(fs, y, i) != Some(id)
    {
      if Up(fs, y, i) == Some(id) {
        MetOnce(fs, y, id, i, k);
      }
    }
    UpFrame(fs, gs, id, y, k);
    UpAdd(gs, y, k, 1 + j);
    if p.Some? {
      UpFrame(fs, gs, id, p.value, j);
      ChainOf(fs, user, p.value, j);
    }
  }

  /** A folder outside the moved subtree keeps its whole way to the root. */
  lemma UnmovedWalk(fs: Folders, id: FolderId, p: Option<FolderId>, y: FolderId, j: nat)
    requires id in fs && forall k: nat :: Up(fs, y, k) != Some(id)
    ensures Up(MoveTo(fs, id, p), y, j) == Up(fs, y, j)
  {
    UpFrame(fs, MoveTo(fs, id, p), id, y, j);
  }

  lemma MovedShallow(fs: Folders, user: UserId, id: FolderId, p: Option<FolderId>, y: FolderId)
    requires Hierarchy(fs) && OwnedBy(fs, user, id) && y in fs
    requires p.Some? ==> OwnedBy(fs, user, p.value) && forall i: nat :: Up(fs, p.value, i) != Some(id)
    requires ParentDepth(fs, user, p) + SubtreeHeight(fs, user, id, RECURSION_LIMIT) <= MAX_FOLDER_DEPTH
    ensures Up(MoveTo(fs, id, p), y, MAX_FOLDER_DEPTH).None?
  {
    if k: nat :| Up(fs, y, k) == Some(id) {
      HeightIsDistance(fs, user, id, RECURSION_LIMIT, k);
      MovedWalk(fs, user, id, p, y, k, MAX_FOLDER_DEPTH - k - 1);
    } else {
      UnmovedWalk(fs, id, p, y, MAX_FOLDER_DEPTH);
    }
  }

  lemma HeightWithinDepth(fs: Folders, user: UserId, id: FolderId)
    requires Hierarchy(fs) && OwnedBy(fs, user, id)
    ensures 1 <= SubtreeHeight(fs, user, id, RECURSION_LIMIT) <= MAX_FOLDER_DEPTH
  {
    assert Up(fs, id, 0) == Some(id);
    HeightIsDistance(fs, user, id, RECURSION_LIMIT, 0);
    HeightIsDistance(fs, user, id, RECURSION_LIMIT, MAX_FOLDER_DEPTH);
  }

  lemma MovedDeep(fs: Folders, user: UserId, id: FolderId, p: Option<FolderId>) returns (y: FolderId)
    requires Hierarchy(fs) && OwnedBy(fs, user, id)
    requires p.Some? ==> OwnedBy(fs, user, p.value) && forall i: nat :: Up(fs, p.value, i) != Some(id)
    requires ParentDepth(fs, user, p) + SubtreeHeight(fs, user, id, RECURSION_LIMIT) > MAX_FOLDER_DEPTH
    ensures y in fs && Up(MoveTo(fs, id, p), y, MAX_FOLDER_DEPTH).Some?
  {
    var height := SubtreeHeight(fs, user, id, RECURSION_LIMIT);
    HeightWithinDepth(fs, user, id);
    HeightIsDistance(fs, user, id, RECURSION_LIMIT, height - 1);
    y :| y in fs && Up(fs, y, height - 1) == Some(id);
    MovedWalk(fs, user, id, p, y, height - 1, MAX_FOLDER_DEPTH - height);
  }

  /** With no cycle in the way, the moved hierarchy stays within a depth exactly when parent and subtree together do. */
  lemma MovedDepth(fs: Folders, user: UserId, id: FolderId, p: Option<FolderId>)
    requires Hierarchy(fs) && OwnedBy(fs, user, id)
    requires p.Some? ==> OwnedBy(fs, user, p.value) && forall i: nat :: Up(fs, p.value, i) != Some(id)
    ensures DepthAtMost(MoveTo(fs, id, p), MAX_FOLDER_DEPTH)
            <==> ParentDepth(fs, user, p) + SubtreeHeight(fs, user, id, RECURSION_LIMIT) <= MAX_FOLDER_DEPTH
  {
    var gs := MoveTo(fs, id, p);
    assert gs.Keys == fs.Keys;
    if ParentDepth(fs, user, p) + SubtreeHeight(fs, user, id, RECURSION_LIMIT) <= MAX_FOLDER_DEPTH {
      forall y | y in gs
        ensures Up(gs, y, MAX_FOLDER_DEPTH).None?
      {
        MovedShallow(fs, user, id, p, y);
      }
    } else {
      var y := MovedDeep(fs, user, id, p);
      assert y in gs;
    }
  }

  /**
   The move check is sound and complete: towards the root or a folder of the
   same user, a move is accepted exactly when the rewritten folders are still
   a hierarchy.
   */
  lemma MoveCheckExact(fs: Folders, user: UserId, id: FolderId, p: Option<FolderId>)
    requires Hierarchy(fs) && OwnedBy(fs, user, id)
    requires p.Some? ==> OwnedBy(fs, user, p.value)
    ensures MoveVerdict(fs, user, id, p) == Accepted <==> Hierarchy(MoveTo(fs, id, p))
  {
    var gs := MoveTo(fs, id, p);
    if p.Some? && id in AncestorChain(fs, user, p.value, RECURSION_LIMIT) {
      ChainMembers(fs, user, p.value, id);
      var m: nat :| Up(fs, p.value, m) == Some(id);
      MoveUnderSelfCloses(fs, id, p.value, m);
      assert !Acyclic(gs);
    } else {
      if p.Some? {
        ChainMembers(fs, user, p.value, id);
        ChainOf(fs, user, p.value, 0);
      }
      MovedDepth(fs, user, id, p);
      if DepthAtMost(gs, MAX_FOLDER_DEPTH) {
        DepthMeansAcyclic(gs, MAX_FOLDER_DEPTH);
      }
    }
  }

  /** Why a move is refused: the reported reason is the one that applies. */
  lemma MoveRefusal(fs: Folders, user: UserId, id: FolderId, p: Option<FolderId>)
    requires Hierarchy(fs) && OwnedBy(fs, user, id)
    ensures MoveVerdict(fs, user, id, p) == NotFound <==> p.Some? && !OwnedBy(fs, user, p.value)
    ensures MoveVerdict(fs, user, id, p) == SelfParent <==> p == Some(id)
    ensures MoveVerdict(fs, user, id, p) == CycleDetected <==>
            p.Some? && OwnedBy(fs, user, p.value) && Ancestor(fs, id, p.value)
  {
    if p.Some? && OwnedBy(fs, user, p.value) && p != Some(id) {
      ChainMembers(fs, user, p.value, id);
      ChainOf(fs, user, p.value, 0);
      assert Up(fs, p.value, 0) == p;
      if k: nat :| Up(fs, p.value, k) == Some(id) {
        assert 0 < k;
        assert Ancestor(fs, id, p.value);
        ChainOf(fs, user, p.value, k);
      }
    }
  }

  // ---------------------------------------------------------------------------
  // Creating
  // ---------------------------------------------------------------------------

  lemma {:induction false} UpAddedFrame(fs: Folders, newId: FolderId, folder: Folder, y: FolderId, k: nat)
    requires ParentsOwned(fs) && newId !in fs && y in fs
    ensures Up(fs[newId := folder], y, k) == Up(fs, y, k)
    decreases k
  {
    if 0 < k && fs[y].parentId.Some? {
      UpAddedFrame(fs, newId, folder, fs[y].parentId.value, k - 1);
    }
  }

  /** The check in `create` is sound and complete for the root and for parents of the user. */
  lemma CreateCheckExact(fs: Folders, user: UserId, name: string, newId: FolderId, p: Option<FolderId>)
    requires Hierarchy(fs) && newId !in fs
    requires p.Some? ==> OwnedBy(fs, user, p.value)
    ensures CreateVerdict(fs, user, p) == Accepted <==> Hierarchy(fs[newId := Folder(user, name, p)])
  {
    var gs := fs[newId := Folder(user, name, p)];
    forall y | y in fs
      ensures Up(gs, y, MAX_FOLDER_DEPTH).None?
    {
      UpAddedFrame(fs, newId, Folder(user, name, p), y, MAX_FOLDER_DEPTH);
    }
    if p.Some? {
      ChainOf(fs, user, p.value, 0);
      ChainOf(fs, user, p.value, MAX_FOLDER_DEPTH - 1);
      UpAddedFrame(fs, newId, Folder(user, name, p), p.value, MAX_FOLDER_DEPTH - 1);
      assert Up(gs, newId, MAX_FOLDER_DEPTH) == Up(gs, p.value, MAX_FOLDER_DEPTH - 1);
    }
    if DepthAtMost(gs, MAX_FOLDER_DEPTH) {
      DepthMeansAcyclic(gs, MAX_FOLDER_DEPTH);
    }
  }

  // ---------------------------------------------------------------------------
  // Deleting
  // ---------------------------------------------------------------------------

  lemma NotOwnParent(fs: Folders, id: FolderId)
    requires Acyclic(fs) && id in fs
    ensures Parent(fs, id) != Some(id)
  {
    assert Up(fs, id, 1) == if Parent(fs, id).Some? then Up(fs, Parent(fs, id).value, 0) else None;
  }

  lemma WithoutParent(fs: Folders, user: UserId, id: FolderId, y: FolderId)
    requires Hierarchy(fs) && OwnedBy(fs, user, id) && y in fs && y != id
    ensures Parent(Without(fs, user, id), y) == if Parent(fs, y) == Some(id) then Parent(fs, id) else Parent(fs, y)
  {
  }

  /** A walk that does not meet the deleted folder is unchanged. */
  lemma {:induction false} WithoutFrame(fs: Folders, user: UserId, id: FolderId, y: FolderId, k: nat)
    requires Hierarchy(fs) && OwnedBy(fs, user, id) && y in fs
    requires forall i: nat :: i <= k ==> Up(fs, y, i) != Some(id)
    ensures Up(Without(fs, user, id), y, k) == Up(fs, y, k)
    decreases k
  {
    assert Up(fs, y, 0) == Some(y);
    if 0 < k {
      WithoutParent(fs, user, id, y);
      var p := Parent(fs, y);
      assert Up(fs, y, 1) == if p.Some? then Up(fs, p.value, 0) else None;
      if p.Some? {
        forall i: nat | i <= k - 1
          ensures Up(fs, p.value, i) != Some(id)
        {
          assert Up(fs, y, i + 1) == Up(fs, p.value, i);
        }
        WithoutFrame(fs, user, id, p.value, k - 1);
      }
    }
  }

  /** A walk that meets the deleted folder after `m` steps skips it: from there on it is one step shorter. */
  lemma {:induction false} WithoutSkips(fs: Folders, user: UserId, id: FolderId, y: FolderId, m: nat, k: nat)
    requires Hierarchy(fs) && OwnedBy(fs, user, id) && y in fs && y != id
    requires 0 < m <= k && Up(fs, y, m) == Some(id)
    ensures Up(Without(fs, user, id), y, k) == Up(fs, y, k + 1)
    decreases k
  {
    WithoutParent(fs, user, id, y);
    var p := Parent(fs, y).value;
    assert Up(fs, y, k + 1) == Up(fs, p, k);
    if p == id {
      var q := Parent(fs, id);
      if q.Some? {
        forall i: nat | i <= k - 1
          ensures Up(fs, q.value, i) != Some(id)
        {
          assert Up(fs, id, i + 1) == Up(fs, q.value, i);
          assert Up(fs, q.value, i) == Some(id) ==> Ancestor(fs, id, id);
        }
        WithoutFrame(fs, user, id, q.value, k - 1);
        assert Up(fs, id, k) == Up(fs, q.value, k - 1);
      }
    } else {
      assert m != 1;
      WithoutSkips(fs, user, id, p, m - 1, k - 1);
    }
  }

  /** A surviving folder either never meets the deleted one or meets it after at least one step. */
  lemma WithoutWalk(fs: Folders, user: UserId, id: FolderId, y: FolderId, k: nat) returns (skipped: bool)
    requires Hierarchy(fs) && OwnedBy(fs, user, id) && y in fs && y != id
    ensures Up(Without(fs, user, id), y, k) == Up(fs, y, if skipped then k + 1 else k)
    ensures skipped ==> 0 < k
    ensures !skipped ==> Up(fs, y, k) != Some(id)
    ensures skipped <==> exists m: nat :: m <= k && Up(fs, y, m) == Some(id)
  {
    assert Up(fs, y, 0) == Some(y);
    if m: nat :| m <= k && Up(fs, y, m) == Some(id) {
      WithoutSkips(fs, user, id, y, m, k);
      skipped := true;
    } else {
      WithoutFrame(fs, user, id, y, k);
      skipped := false;
    }
  }

  /**
   Deleting a folder keeps the hierarchy, removes that folder only, keeps the
   name and the owner of every other one and makes none deeper.
   */
  lemma DeleteKeepsHierarchy(fs: Folders, user: UserId, id: FolderId)
    requires Hierarchy(fs) && OwnedBy(fs, user, id)
    ensures var gs := Without(fs, user, id);
            && gs.Keys == fs.Keys - {id}
            && Hierarchy(gs)
            && (forall y :: y in gs ==> gs[y].name == fs[y].name && gs[y].userId == fs[y].userId)
            && (forall y, k: nat :: y in gs && Up(fs, y, k).None? ==> Up(gs, y, k).None?)
  {
    var gs := Without(fs, user, id);
    forall y, k: nat | y in gs && Up(fs, y, k).None?
      ensures Up(gs, y, k).None?
    {
      var skipped := WithoutWalk(fs, user, id, y, k);
      UpEnds(fs, y, k, k + 1);
    }
    forall y | y in gs
      ensures Up(gs, y, MAX_FOLDER_DEPTH).None?
    {
    }
    DepthMeansAcyclic(gs, MAX_FOLDER_DEPTH);
    forall y | y in gs && gs[y].parentId.Some?
      ensures OwnedBy(gs, gs[y].userId, gs[y].parentId.value)
    {
      WithoutParent(fs, user, id, y);
      NotOwnParent(fs, id);
    }
  }

  /** Deleting a folder keeps the ancestor relation among the survivors. */
  lemma DeleteKeepsAncestors(fs: Folders, user: UserId, id: FolderId, a: FolderId, y: FolderId)
    requires Hierarchy(fs) && OwnedBy(fs, user, id)
    requires a in fs && y in fs && a != id && y != id
    ensures Ancestor(Without(fs, user, id), a, y) <==> Ancestor(fs, a, y)
  {
    var gs := Without(fs, user, id);
    if k: nat :| 0 < k && Up(fs, y, k) == Some(a) {
      var skipped := WithoutWalk(fs, user, id, y, k);
      if skipped {
        var m: nat :| m <= k && Up(fs, y, m) == Some(id);
        assert Up(fs, y, 0) == Some(y);
        WithoutSkips(fs, user, id, y, m, k - 1);
        assert Up(gs, y, k - 1) == Some(a);
      } else {
        assert Up(gs, y, k) == Some(a);
      }
      assert Ancestor(gs, a, y);
    }
    if k: nat :| 0 < k && Up(gs, y, k) == Some(a) {
      var skipped := WithoutWalk(fs, user, id, y, k);
      assert Up(fs, y, if skipped then k + 1 else k) == Some(a);
    }
  }
}
