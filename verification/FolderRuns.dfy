/** The folder hierarchy over whole runs of calls by any number of users. */
module FolderRuns {
  import opened Wrappers
  import opened FolderForest
  import opened FolderChanges
  import opened FoldersService
  import opened Histories

  datatype Store = Store(folders: Folders, documents: Documents)

  datatype Call =
    | CreateFolder(user: UserId, name: string, parentId: Option<FolderId>, newId: FolderId)
    | UpdateFolder(user: UserId, id: FolderId, name: string, parentId: Option<FolderId>)
    | RemoveFolder(user: UserId, id: FolderId)
    | PlaceDocument(user: UserId, document: DocumentId, title: string, folderId: Option<FolderId>)

  /** New folder ids are fresh; a document row belongs to one user for good. */
  predicate Allowed(s: Store, call: Call) {
    match call
    case CreateFolder(user, name, parentId, newId) => newId !in s.folders
    case PlaceDocument(user, d, title, folderId) => d in s.documents ==> s.documents[d].userId == user
    case _ => true
  }

  /** A refused call leaves the tables as they are. */
  function After(s: Store, call: Call): Store {
    match call
    case CreateFolder(user, name, parentId, newId) =>
      if CreateVerdict(s.folders, user, parentId) == Accepted then
        s.(folders := s.folders[newId := Folder(user, name, parentId)])
      else s
    case UpdateFolder(user, id, name, parentId) =>
      if OwnedBy(s.folders, user, id)
         && (parentId == s.folders[id].parentId || MoveVerdict(s.folders, user, id, parentId) == Accepted) then
        s.(folders := s.folders[id := Folder(user, name, parentId)])
      else s
    case RemoveFolder(user, id) =>
      if OwnedBy(s.folders, user, id) then
        Store(Without(s.folders, user, id), MovedToRoot(s.documents, user, id))
      else s
    case PlaceDocument(user, d, title, folderId) =>
      if folderId.None? || OwnedBy(s.folders, user, folderId.value) then
        s.(documents := s.documents[d := Document(user, title, folderId)])
      else s
  }

  /** A folder call of the service, from any consistent tables, is that call of a run. */
  method Perform(service: FoldersService, call: Call)
    requires service.Valid() && !call.PlaceDocument?
    requires Allowed(Store(service.folders, service.documents), call)
    modifies service
    ensures service.Valid()
    ensures Store(service.folders, service.documents) == After(old(Store(service.folders, service.documents)), call)
  {
    ghost var before := Store(service.folders, service.documents);
    match call {
      case CreateFolder(user, name, parentId, newId) =>
        var verdict := service.Create(user, name, parentId, newId);
        CreateAgrees(before.folders, user, name, newId, parentId);
      case UpdateFolder(user, id, name, parentId) =>
        var verdict := service.Update(user, id, Some(name), Some(parentId));
        UpdateAgrees(before.folders, user, id, parentId);
      case RemoveFolder(user, id) =>
        if OwnedBy(service.folders, user, id) {
          DocumentsStayPlaced(service.folders, service.documents, user, id);
        }
        var result := service.Remove(user, id);
    }
  }

  lemma CreateAgrees(fs: Folders, user: UserId, name: string, newId: FolderId, p: Option<FolderId>)
    requires Hierarchy(fs) && newId !in fs
    ensures CreateVerdict(fs, user, p) == NotFound <==> p.Some? && !OwnedBy(fs, user, p.value)
    ensures CreateVerdict(fs, user, p) == Accepted <==>
            (p.Some? ==> OwnedBy(fs, user, p.value)) && Hierarchy(fs[newId := Folder(user, name, p)])
  {
    if p.None? || OwnedBy(fs, user, p.value) {
      CreateCheckExact(fs, user, name, newId, p);
    }
  }

  lemma UpdateAgrees(fs: Folders, user: UserId, id: FolderId, p: Option<FolderId>)
    requires Hierarchy(fs)
    ensures OwnedBy(fs, user, id) ==>
            (p == fs[id].parentId || MoveVerdict(fs, user, id, p) == Accepted <==>
             (p.Some? ==> OwnedBy(fs, user, p.value)) && Hierarchy(MoveTo(fs, id, p)))
  {
    if OwnedBy(fs, user, id) {
      MoveRefusal(fs, user, id, p);
      if p.None? || OwnedBy(fs, user, p.value) {
        MoveCheckExact(fs, user, id, p);
      }
      assert p == fs[id].parentId ==> MoveTo(fs, id, p) == fs;
    }
  }

  ghost predicate IsRun(states: seq<Store>) {
    states != [] && states[0] == Store(map[], map[]) && History(states, Next())
  }

  ghost function Next(): (Store, Store) -> bool {
    (s, t) => Follows(s, t)
  }

  ghost predicate Follows(s: Store, t: Store) {
    exists call :: Allowed(s, call) && t == After(s, call)
  }

  lemma UpdateKeeps(s: Store, user: UserId, id: FolderId, name: string, parentId: Option<FolderId>)
    requires Consistent(s.folders, s.documents) && OwnedBy(s.folders, user, id)
    requires parentId == s.folders[id].parentId || MoveVerdict(s.folders, user, id, parentId) == Accepted
    ensures Consistent(s.folders[id := Folder(user, name, parentId)], s.documents)
  {
    var moved := MoveTo(s.folders, id, parentId);
    if parentId == s.folders[id].parentId {
      assert moved == s.folders;
    } else {
      MoveRefusal(s.folders, user, id, parentId);
      MoveCheckExact(s.folders, user, id, parentId);
    }
    RenameKeeps(moved, id, name);
    assert s.folders[id := Folder(user, name, parentId)] == moved[id := moved[id].(name := name)];
  }

  lemma CreateKeeps(s: Store, user: UserId, name: string, parentId: Option<FolderId>, newId: FolderId)
    requires Consistent(s.folders, s.documents) && newId !in s.folders
    requires CreateVerdict(s.folders, user, parentId) == Accepted
    ensures Consistent(s.folders[newId := Folder(user, name, parentId)], s.documents)
  {
    CreateCheckExact(s.folders, user, name, newId, parentId);
  }

  lemma CallKeepsConsistent(s: Store, call: Call)
    requires Consistent(s.folders, s.documents) && Allowed(s, call)
    ensures Consistent(After(s, call).folders, After(s, call).documents)
  {
    match call
    case CreateFolder(user, name, parentId, newId) =>
      if CreateVerdict(s.folders, user, parentId) == Accepted {
        CreateKeeps(s, user, name, parentId, newId);
      }
    case UpdateFolder(user, id, name, parentId) =>
      if OwnedBy(s.folders, user, id)
         && (parentId == s.folders[id].parentId || MoveVerdict(s.folders, user, id, parentId) == Accepted) {
        UpdateKeeps(s, user, id, name, parentId);
      }
    case RemoveFolder(user, id) =>
      if OwnedBy(s.folders, user, id) {
        DeleteKeepsHierarchy(s.folders, user, id);
        DocumentsStayPlaced(s.folders, s.documents, user, id);
      }
    case PlaceDocument(user, d, title, folderId) =>
  }

  /** Every reachable state is a forest of depth at most 10, all documents in existing folders of their owner. */
  lemma EveryStateConsistent(states: seq<Store>, i: nat)
    requires IsRun(states) && i < |states|
    ensures Consistent(states[i].folders, states[i].documents)
  {
    var inv := (s: Store) => Consistent(s.folders, s.documents);
    forall s, t | inv(s) && Next()(s, t)
      ensures inv(t)
    {
      var call :| Allowed(s, call) && t == After(s, call);
      CallKeepsConsistent(s, call);
    }
    HistoryKeeps(states, Next(), s => true, inv, 0, i);
  }

  /**
   In every reachable state the 64-step queries are exact: the chain lists the
   whole way to the root and the height reaches the deepest descendant.
   */
  lemma QueriesExact(states: seq<Store>, i: nat, user: UserId, id: FolderId, k: nat)
    requires IsRun(states) && i < |states| && OwnedBy(states[i].folders, user, id)
    ensures var fs := states[i].folders;
            var chain := AncestorChain(fs, user, id, RECURSION_LIMIT);
            && (Up(fs, id, k).Some? <==> k < |chain|)
            && (k < |chain| ==> chain[k] == Up(fs, id, k).value)
            && ((exists y :: y in fs && Up(fs, y, k) == Some(id)) <==> k < SubtreeHeight(fs, user, id, RECURSION_LIMIT))
  {
    EveryStateConsistent(states, i);
    ChainOf(states[i].folders, user, id, k);
    HeightIsDistance(states[i].folders, user, id, RECURSION_LIMIT, k);
  }

  /** No run ever loses a document or hands it to another user. */
  lemma DocumentsKept(states: seq<Store>, i: nat, k: nat, d: DocumentId)
    requires IsRun(states) && i <= k < |states| && d in states[i].documents
    ensures d in states[k].documents && states[k].documents[d].userId == states[i].documents[d].userId
  {
    var user := states[i].documents[d].userId;
    var inv := (s: Store) => d in s.documents && s.documents[d].userId == user;
    HistoryKeeps(states, Next(), s => true, inv, i, k);
  }
}
