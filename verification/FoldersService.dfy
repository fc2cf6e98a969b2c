/**
 `FoldersService` over the tables `folders` and `documents`.  Every call runs
 in one transaction under the user's hierarchy lock, so it is one step.
 New ids are fresh.
 */
module FoldersService {
  import opened Wrappers
  import opened FolderForest
  import opened FolderChanges

  type DocumentId = nat

  datatype Document = Document(userId: UserId, title: string, folderId: Option<FolderId>)

  type Documents = map<DocumentId, Document>

  /** A document lies in the root or in an existing folder of its owner. */
  ghost predicate DocumentsPlaced(fs: Folders, docs: Documents) {
    forall d :: d in docs && docs[d].folderId.Some? ==> OwnedBy(fs, docs[d].userId, docs[d].folderId.value)
  }

  ghost predicate Consistent(fs: Folders, docs: Documents) {
    Hierarchy(fs) && DocumentsPlaced(fs, docs)
  }

  function DocumentsIn(docs: Documents, user: UserId, id: FolderId): set<DocumentId> {
    set d | d in docs && docs[d].folderId == Some(id) && docs[d].userId == user
  }

  function MovedToRoot(docs: Documents, user: UserId, id: FolderId): Documents {
    map d | d in docs :: if d in DocumentsIn(docs, user, id) then docs[d].(folderId := None) else docs[d]
  }

  datatype Deletion = Deleted(movedDocuments: nat, promotedFolders: nat) | FolderMissing

  class FoldersService {
    var folders: Folders
    var documents: Documents

    ghost predicate Valid()
      reads this
    {
      Consistent(folders, documents)
    }

    constructor ()
      ensures Valid() && folders == map[] && documents == map[]
    {
      folders, documents := map[], map[];
    }

    method Create(user: UserId, name: string, parentId: Option<FolderId>, newId: FolderId) returns (verdict: Verdict)
      requires Valid() && newId !in folders
      modifies this`folders
      ensures Valid()
      ensures parentId.Some? && !OwnedBy(old(folders), user, parentId.value) <==> verdict == NotFound
      ensures verdict != NotFound ==>
        (verdict == Accepted <==> Hierarchy(old(folders)[newId := Folder(user, name, parentId)]))
      ensures verdict == Accepted || verdict == NotFound || verdict == DepthExceeded
      ensures folders == if verdict == Accepted then old(folders)[newId := Folder(user, name, parentId)]
                         else old(folders)
    {
      verdict := Accepted;
      if parentId.Some? {
        var chain := AncestorChain(folders, user, parentId.value, RECURSION_LIMIT);
        if |chain| == 0 {
          verdict := NotFound;
        } else if |chain| + 1 > MAX_FOLDER_DEPTH {
          verdict := DepthExceeded;
        }
        if OwnedBy(folders, user, parentId.value) {
          ChainOf(folders, user, parentId.value, 0);
        }
      }
      if verdict != NotFound {
        CreateCheckExact(folders, user, name, newId, parentId);
      }
      if verdict == Accepted {
        folders := folders[newId := Folder(user, name, parentId)];
      }
    }

    /** `assertValidMove` */
    method AssertValidMove(user: UserId, id: FolderId, newParentId: Option<FolderId>) returns (verdict: Verdict)
      ensures verdict == MoveVerdict(folders, user, id, newParentId)
    {
      if newParentId == Some(id) {
        return SelfParent;
      }
      var parentDepth := 0;
      if newParentId.Some? {
        var chain := AncestorChain(folders, user, newParentId.value, RECURSION_LIMIT);
        if |chain| == 0 {
          return NotFound;
        }
        if id in chain {
          return CycleDetected;
        }
        parentDepth := |chain|;
      }
      var height := SubtreeHeight(folders, user, id, RECURSION_LIMIT);
      if parentDepth + height > MAX_FOLDER_DEPTH {
        return DepthExceeded;
      }
      verdict := Accepted;
    }

    /** Renames, moves or both; `None` leaves a field as it is. */
    method Update(user: UserId, id: FolderId, name: Option<string>, parentId: Option<Option<FolderId>>)
      returns (verdict: Verdict)
      requires Valid()
      modifies this`folders
      ensures Valid()
      ensures !OwnedBy(old(folders), user, id) ==> verdict == NotFound
      ensures OwnedBy(old(folders), user, id) ==>
        var target := if parentId.Some? then parentId.value else old(folders)[id].parentId;
        && (target.Some? && !OwnedBy(old(folders), user, target.value) <==> verdict == NotFound)
        && (verdict != NotFound ==> (verdict == Accepted <==> Hierarchy(MoveTo(old(folders), id, target))))
        && (verdict == SelfParent <==> target == Some(id))
        && (verdict == CycleDetected <==>
              target.Some? && OwnedBy(old(folders), user, target.value) && Ancestor(old(folders), id, target.value))
        && (verdict == Accepted ==>
              var newName := if name.Some? then name.value else old(folders)[id].name;
              folders == old(folders)[id := Folder(user, newName, target)])
      ensures verdict != Accepted ==> folders == old(folders)
    {
      if !OwnedBy(folders, user, id) {
        return NotFound;
      }
      var current := folders[id];
      var data := current;
      if name.Some? {
        data := data.(name := name.value);
      }
      verdict := Accepted;
      if parentId.Some? && parentId.value != current.parentId {
        verdict := AssertValidMove(user, id, parentId.value);
        MoveRefusal(folders, user, id, parentId.value);
        if verdict != NotFound {
          MoveCheckExact(folders, user, id, parentId.value);
        }
        data := data.(parentId := parentId.value);
      } else {
        assert MoveTo(folders, id, current.parentId) == folders;
        ParentIsNoDescendant(folders, id);
      }
      if verdict == Accepted {
        var moved := MoveTo(folders, id, data.parentId);
        RenameKeeps(moved, id, data.name);
        assert folders[id := data] == moved[id := moved[id].(name := data.name)];
        folders := folders[id := data];
      }
    }

    /** Documents go to the root, child folders to the parent, then the row is deleted. */
    method Remove(user: UserId, id: FolderId) returns (result: Deletion)
      requires Valid()
      modifies this
      ensures Valid()
      ensures result == FolderMissing <==> !OwnedBy(old(folders), user, id)
      ensures result == FolderMissing ==> folders == old(folders) && documents == old(documents)
      ensures result.Deleted? ==>
        && folders == Without(old(folders), user, id)
        && documents.Keys == old(documents).Keys
        && (forall d :: d in documents ==>
              documents[d] == old(documents)[d].(folderId := if old(documents)[d].folderId == Some(id) then None
                                                             else old(documents)[d].folderId))
        && result.movedDocuments == |set d | d in documents && documents[d] != old(documents)[d]|
        && result.promotedFolders == |set f | f in folders && folders[f] != old(folders)[f]|
    {
      if !OwnedBy(folders, user, id) {
        return FolderMissing;
      }
      var parentId := folders[id].parentId;
      var moved := DocumentsIn(documents, user, id);
      var promoted := Children(folders, user, {id});
      DeleteKeepsHierarchy(folders, user, id);
      DeletionAsUpdates(folders, user, id);
      DocumentsStayPlaced(folders, documents, user, id);
      documents := MovedToRoot(documents, user, id);
      folders := map f | f in folders :: if f in promoted then folders[f].(parentId := parentId) else folders[f];
      folders := folders - {id};
      result := Deleted(|moved|, |promoted|);
    }
  }

  lemma ParentIsNoDescendant(fs: Folders, id: FolderId)
    requires Hierarchy(fs) && id in fs
    ensures fs[id].parentId.Some? ==> fs[id].parentId.value != id && !Ancestor(fs, id, fs[id].parentId.value)
  {
    NotOwnParent(fs, id);
    if fs[id].parentId.Some? {
      forall k: nat | 0 < k
        ensures Up(fs, fs[id].parentId.value, k) != Some(id)
      {
        assert Up(fs, fs[id].parentId.value, k) == Up(fs, id, k + 1);
      }
    }
  }

  /** Promoting the children and deleting the row gives the folders without `id`; only promoted rows change. */
  lemma DeletionAsUpdates(fs: Folders, user: UserId, id: FolderId)
    requires Hierarchy(fs) && OwnedBy(fs, user, id)
    ensures var promoted := Children(fs, user, {id});
            var updated := map f | f in fs :: if f in promoted then fs[f].(parentId := fs[id].parentId) else fs[f];
            && updated - {id} == Without(fs, user, id)
            && promoted == set f | f in Without(fs, user, id) && Without(fs, user, id)[f] != fs[f]
  {
    NotOwnParent(fs, id);
  }

  /** Moving the folder's documents to the root loses none, changes exactly those, and leaves no reference behind. */
  lemma DocumentsStayPlaced(fs: Folders, docs: Documents, user: UserId, id: FolderId)
    requires Consistent(fs, docs) && OwnedBy(fs, user, id)
    ensures var moved := MovedToRoot(docs, user, id);
            && moved.Keys == docs.Keys
            && (forall d :: d in docs ==>
                  moved[d] == docs[d].(folderId := if docs[d].folderId == Some(id) then None else docs[d].folderId))
            && DocumentsIn(docs, user, id) == (set d | d in moved && moved[d] != docs[d])
            && DocumentsPlaced(Without(fs, user, id), moved)
  {
    var moved := MovedToRoot(docs, user, id);
    forall d | d in docs
      ensures moved[d] == docs[d].(folderId := if docs[d].folderId == Some(id) then None else docs[d].folderId)
    {
    }
  }

  lemma {:induction false} UpRename(fs: Folders, id: FolderId, name: string, y: FolderId, k: nat)
    requires id in fs
    ensures Up(fs[id := fs[id].(name := name)], y, k) == Up(fs, y, k)
    decreases k
  {
    var gs := fs[id := fs[id].(name := name)];
    if 0 < k && Parent(fs, y).Some? {
      UpRename(fs, id, name, Parent(fs, y).value, k - 1);
    }
  }

  lemma RenameKeeps(fs: Folders, id: FolderId, name: string)
    requires Hierarchy(fs) && id in fs
    ensures Hierarchy(fs[id := fs[id].(name := name)])
  {
    var gs := fs[id := fs[id].(name := name)];
    forall y | y in gs
      ensures Up(gs, y, MAX_FOLDER_DEPTH).None?
    {
      UpRename(fs, id, name, y, MAX_FOLDER_DEPTH);
    }
    DepthMeansAcyclic(gs, MAX_FOLDER_DEPTH);
  }
}
