/**
 The folder hierarchy.  The two recursive queries of `FoldersService` are
 modelled as they are written, with their recursion limit; `Up` is the
 unbounded ancestor relation they are compared with.
 */
module FolderForest {
  import opened Wrappers

  type FolderId = nat
  type UserId = nat

  datatype Folder = Folder(userId: UserId, name: string, parentId: Option<FolderId>)

  type Folders = map<FolderId, Folder>

  const MAX_FOLDER_DEPTH: nat := 10
  const RECURSION_LIMIT: nat := 64

  predicate OwnedBy(fs: Folders, user: UserId, id: FolderId) {
    id in fs && fs[id].userId == user
  }

  // ---------------------------------------------------------------------------
  // Reference: the unbounded ancestor relation
  // ---------------------------------------------------------------------------

  function Parent(fs: Folders, id: FolderId): Option<FolderId> {
    if id in fs then fs[id].parentId else None
  }

  /** The ancestor `k` levels above `id` (`id` itself for 0), if the chain reaches that far. */
  function Up(fs: Folders, id: FolderId, k: nat): Option<FolderId>
    decreases k
  {
    if k == 0 then Some(id)
    else
      var p := Parent(fs, id);
      if p.None? then None else Up(fs, p.value, k - 1)
  }

  ghost predicate Ancestor(fs: Folders, a: FolderId, id: FolderId) {
    exists k: nat :: 0 < k && Up(fs, id, k) == Some(a)
  }

  /** No folder is its own ancestor. */
  ghost predicate Acyclic(fs: Folders) {
    forall id :: id in fs ==> !Ancestor(fs, id, id)
  }

  /** Every folder has at most `depth` folders on its way to the root, itself included. */
  ghost predicate DepthAtMost(fs: Folders, depth: nat) {
    forall id :: id in fs ==> Up(fs, id, depth).None?
  }

  /** Parents exist and belong to the same user. */
  ghost predicate ParentsOwned(fs: Folders) {
    forall id :: id in fs && fs[id].parentId.Some? ==> OwnedBy(fs, fs[id].userId, fs[id].parentId.value)
  }

  ghost predicate Hierarchy(fs: Folders) {
    ParentsOwned(fs) && Acyclic(fs) && DepthAtMost(fs, MAX_FOLDER_DEPTH)
  }

  // ---------------------------------------------------------------------------
  // The service's queries and checks
  // ---------------------------------------------------------------------------

  /** The recursive query `chain`: `id` and its ancestors, nearest first, down to `limit` rows. */
  function AncestorChain(fs: Folders, user: UserId, id: FolderId, limit: nat): seq<FolderId>
    decreases limit
  {
    if limit == 0 || !OwnedBy(fs, user, id) then []
    else [id] + match fs[id].parentId
                case None => []
                case Some(p) => AncestorChain(fs, user, p, limit - 1)
  }

  function Children(fs: Folders, user: UserId, ids: set<FolderId>): set<FolderId> {
    set f | f in fs && fs[f].userId == user && fs[f].parentId.Some? && fs[f].parentId.value in ids
  }

  /** The recursive query `sub`, level by level: how many levels start from `ids`, up to `limit`. */
  function Levels(fs: Folders, user: UserId, ids: set<FolderId>, limit: nat): nat
    decreases limit
  {
    if limit == 0 || ids == {} then 0 else 1 + Levels(fs, user, Children(fs, user, ids), limit - 1)
  }

  function SubtreeHeight(fs: Folders, user: UserId, id: FolderId, limit: nat): nat {
    Levels(fs, user, if OwnedBy(fs, user, id) then {id} else {}, limit)
  }

  datatype Verdict = Accepted | SelfParent | NotFound | CycleDetected | DepthExceeded

  /** `assertValidMove` */
  function MoveVerdict(fs: Folders, user: UserId, id: FolderId, newParent: Option<FolderId>): Verdict {
    if newParent == Some(id) then SelfParent
    else
      var chain := if newParent.Some? then AncestorChain(fs, user, newParent.value, RECURSION_LIMIT) else [];
      if newParent.Some? && chain == [] then NotFound
      else if id in chain then CycleDetected
      else if |chain| + SubtreeHeight(fs, user, id, RECURSION_LIMIT) > MAX_FOLDER_DEPTH then DepthExceeded
      else Accepted
  }

  /** The check in `create`. */
  function CreateVerdict(fs: Folders, user: UserId, parent: Option<FolderId>): Verdict {
    if parent.None? then Accepted
    else
      var chain := AncestorChain(fs, user, parent.value, RECURSION_LIMIT);
      if chain == [] then NotFound
      else if |chain| + 1 > MAX_FOLDER_DEPTH then DepthExceeded
      else Accepted
  }

  function MoveTo(fs: Folders, id: FolderId, newParent: Option<FolderId>): Folders
    requires id in fs
  {
    fs[id := fs[id].(parentId := newParent)]
  }

  /** Children of `id` are promoted to its parent, then the row is deleted. */
  function Without(fs: Folders, user: UserId, id: FolderId): Folders
    requires id in fs
  {
    map f | f in fs && f != id ::
      if fs[f].parentId == Some(id) && fs[f].userId == user then fs[f].(parentId := fs[id].parentId) else fs[f]
  }

  // ---------------------------------------------------------------------------
  // Walking up
  // ---------------------------------------------------------------------------

  lemma {:induction false} UpAdd(fs: Folders, id: FolderId, i: nat, j: nat)
    requires Up(fs, id, i).Some?
    ensures Up(fs, id, i + j) == Up(fs, Up(fs, id, i).value, j)
    decreases i
  {
    if 0 < i {
      UpAdd(fs, Parent(fs, id).value, i - 1, j);
    }
  }

  lemma {:induction false} UpEnds(fs: Folders, id: FolderId, i: nat, j: nat)
    requires Up(fs, id, i).None? && i <= j
    ensures Up(fs, id, j).None?
    decreases j
  {
    if Parent(fs, id).Some? {
      UpEnds(fs, Parent(fs, id).value, i - 1, j - 1);
    }
  }

  /** A walk that never leaves `id` does not notice that `id` has moved. */
  lemma {:induction false} UpFrame(fs: Folders, gs: Folders, id: FolderId, y: FolderId, k: nat)
    requires forall f :: f != id ==> Parent(gs, f) == Parent(fs, f)
    requires forall i: nat :: i < k ==> Up(fs, y, i) != Some(id)
    ensures Up(gs, y, k) == Up(fs, y, k)
    decreases k
  {
    if 0 < k {
      assert Up(fs, y, 0) == Some(y);
      var p := Parent(fs, y);
      if p.Some? {
        forall i: nat | i < k - 1
          ensures Up(fs, p.value, i) != Some(id)
        {
          assert Up(fs, y, i + 1) == Up(fs, p.value, i);
        }
        UpFrame(fs, gs, id, p.value, k - 1);
      }
    }
  }

  /** From a folder that is its own ancestor the walk never ends. */
  lemma {:induction false} CycleNeverEnds(fs: Folders, id: FolderId, c: nat, k: nat)
    requires 0 < c && Up(fs, id, c) == Some(id)
    ensures Up(fs, id, k).Some?
  {
    if k <= c {
      if Up(fs, id, k).None? {
        UpEnds(fs, id, k, c);
      }
    } else {
      CycleNeverEnds(fs, id, c, k - c);
      UpAdd(fs, id, c, k - c);
    }
  }

  /** A bound on the depth already rules out cycles. */
  lemma DepthMeansAcyclic(fs: Folders, depth: nat)
    requires DepthAtMost(fs, depth)
    ensures Acyclic(fs)
  {
    forall id | id in fs
      ensures !Ancestor(fs, id, id)
    {
      if Ancestor(fs, id, id) {
        var k: nat :| 0 < k && Up(fs, id, k) == Some(id);
        CycleNeverEnds(fs, id, k, depth);
      }
    }
  }

  lemma {:induction false} UpOwned(fs: Folders, user: UserId, id: FolderId, k: nat)
    requires ParentsOwned(fs) && OwnedBy(fs, user, id) && Up(fs, id, k).Some?
    ensures OwnedBy(fs, user, Up(fs, id, k).value)
    decreases k
  {
    if 0 < k {
      UpOwned(fs, user, Parent(fs, id).value, k - 1);
    }
  }

  // ---------------------------------------------------------------------------
  // The queries equal the unbounded relation
  // ---------------------------------------------------------------------------

  /** If the walk ends within the limit, the query returns exactly the walk. */
  lemma {:induction false} ChainIsWalk(fs: Folders, user: UserId, id: FolderId, limit: nat, k: nat)
    requires ParentsOwned(fs) && OwnedBy(fs, user, id) && Up(fs, id, limit).None?
    ensures Up(fs, id, k).Some? <==> k < |AncestorChain(fs, user, id, limit)|
    ensures k < |AncestorChain(fs, user, id, limit)| ==> AncestorChain(fs, user, id, limit)[k] == Up(fs, id, k).value
    decreases limit
  {
    var p := fs[id].parentId;
    if p.Some? && 0 < k {
      ChainIsWalk(fs, user, p.value, limit - 1, k - 1);
    }
  }

  ghost function Level(fs: Folders, user: UserId, id: FolderId, k: nat): set<FolderId> {
    if k == 0 then {id} else Children(fs, user, Level(fs, user, id, k - 1))
  }

  /** Level `k` below `id` is the user's folders `k` steps under it. */
  lemma {:induction false} LevelIsDistance(fs: Folders, user: UserId, id: FolderId, k: nat, y: FolderId)
    requires OwnedBy(fs, user, id) && ParentsOwned(fs)
    ensures y in Level(fs, user, id, k) <==> OwnedBy(fs, user, y) && Up(fs, y, k) == Some(id)
  {
    if 0 < k {
      var p := Parent(fs, y);
      if p.Some? {
        LevelIsDistance(fs, user, id, k - 1, p.value);
      }
    }
  }

  lemma {:induction false} LevelsShift(fs: Folders, user: UserId, id: FolderId, from: nat, limit: nat, k: nat)
    requires Level(fs, user, id, from + limit) == {}
    ensures Level(fs, user, id, from + k) != {} <==> k < Levels(fs, user, Level(fs, user, id, from), limit)
    decreases limit
  {
    if Level(fs, user, id, from) == {} {
      EmptyStays(fs, user, id, from, k);
    } else if 0 < limit {
      if 0 < k {
        LevelsShift(fs, user, id, from + 1, limit - 1, k - 1);
      }
    }
  }

  lemma {:induction false} EmptyStays(fs: Folders, user: UserId, id: FolderId, from: nat, k: nat)
    requires Level(fs, user, id, from) == {}
    ensures Level(fs, user, id, from + k) == {}
  {
    if 0 < k {
      EmptyStays(fs, user, id, from, k - 1);
    }
  }

  /** The subtree query returns the unbounded height: some folder lies `k` steps under `id` exactly for `k` below it. */
  lemma HeightIsDistance(fs: Folders, user: UserId, id: FolderId, limit: nat, k: nat)
    requires Hierarchy(fs) && OwnedBy(fs, user, id) && MAX_FOLDER_DEPTH <= limit
    ensures (exists y :: y in fs && Up(fs, y, k) == Some(id)) <==> k < SubtreeHeight(fs, user, id, limit)
  {
    if y :| y in Level(fs, user, id, limit) {
      LevelIsDistance(fs, user, id, limit, y);
      UpEnds(fs, y, MAX_FOLDER_DEPTH, limit);
    }
    LevelsShift(fs, user, id, 0, limit, k);
    if y :| y in Level(fs, user, id, k) {
      LevelIsDistance(fs, user, id, k, y);
    }
    if y :| y in fs && Up(fs, y, k) == Some(id) {
      UpOwned(fs, fs[y].userId, y, k);
      LevelIsDistance(fs, user, id, k, y);
    }
  }

  /**
   In every hierarchy the recursion limit never cuts an answer short: a larger
   limit returns the same chain and the same height.
   */
  lemma LimitNeverCuts(fs: Folders, user: UserId, id: FolderId, limit: nat)
    requires Hierarchy(fs) && RECURSION_LIMIT <= limit
    ensures AncestorChain(fs, user, id, RECURSION_LIMIT) == AncestorChain(fs, user, id, limit)
    ensures SubtreeHeight(fs, user, id, RECURSION_LIMIT) == SubtreeHeight(fs, user, id, limit)
  {
    if OwnedBy(fs, user, id) {
      UpEnds(fs, id, MAX_FOLDER_DEPTH, RECURSION_LIMIT);
      UpEnds(fs, id, MAX_FOLDER_DEPTH, limit);
      var short, long := AncestorChain(fs, user, id, RECURSION_LIMIT), AncestorChain(fs, user, id, limit);
      ChainIsWalk(fs, user, id, RECURSION_LIMIT, |short|);
      ChainIsWalk(fs, user, id, limit, |short|);
      ChainIsWalk(fs, user, id, RECURSION_LIMIT, |long|);
      ChainIsWalk(fs, user, id, limit, |long|);
      forall k: nat | k < |short|
        ensures k < |long| && short[k] == long[k]
      {
        ChainIsWalk(fs, user, id, RECURSION_LIMIT, k);
        ChainIsWalk(fs, user, id, limit, k);
      }
      var h, g := SubtreeHeight(fs, user, id, RECURSION_LIMIT), SubtreeHeight(fs, user, id, limit);
      HeightIsDistance(fs, user, id, RECURSION_LIMIT, h);
      HeightIsDistance(fs, user, id, limit, h);
      HeightIsDistance(fs, user, id, RECURSION_LIMIT, g);
      HeightIsDistance(fs, user, id, limit, g);
    }
  }
}
