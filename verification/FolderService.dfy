/**
 The folder table of a multi-user library, with the service calls that change it.
 A call either commits as a whole or leaves the tables as they were.
*/
module FolderServices {
  import opened Wrappers
  import opened Sequences
  import opened ParentMaps
  import opened FolderMoves
  import opened FolderTrees

  datatype Folder = Folder(owner: Id, name: string, parent: Option<Id>)

  datatype Document = Document(owner: Id, folder: Option<Id>)

  datatype Error = NotFound | NameTaken | SeveralRows | CyclicHierarchy | ConstraintViolated

  type Folders = map<Id, Folder>

  datatype Library = Library(folders: Folders, documents: map<Id, Document>)

  predicate Owns(folders: Folders, user: Id, x: Id) {
    x in folders && folders[x].owner == user
  }

  /** The parent pointers of one user's folders, as the cycle guard collects them. */
  function ParentMapOf(folders: Folders, user: Id): ParentMap {
    map x | x in folders && folders[x].owner == user :: folders[x].parent
  }

  /** The same over the whole table. */
  function Links(folders: Folders): ParentMap {
    map x | x in folders :: folders[x].parent
  }

  function Siblings(folders: Folders, user: Id, parent: Option<Id>, name: string): set<Id> {
    set x | x in folders && folders[x] == Folder(user, name, parent)
  }

  /**
   The table's unique constraint on owner, parent and name. SQL never equates two absent parents,
   so it says nothing about top-level folders.
  */
  predicate UniqueNames(folders: Folders) {
    forall a, b :: a in folders && b in folders && a != b && folders[a].parent.Some? ==> folders[a] != folders[b]
  }

  // ---- What each call does to the tables ----------------------------------------------------------

  function Create(folders: Folders, user: Id, newId: Id, parent: Option<Id>, name: string): Result<Folders, Error> {
    var taken := Siblings(folders, user, parent, name);
    if parent.Some? && !Owns(folders, user, parent.value) then Err(NotFound)
    else if |taken| == 1 then Err(NameTaken)
    else if |taken| > 1 then Err(SeveralRows)
    else if newId in folders then Err(ConstraintViolated)
    else Ok(folders[newId := Folder(user, name, parent)])
  }

  function Edited(f: Folder, parent: Option<Id>, name: Option<string>, strip: string -> string): Folder {
    Folder(f.owner,
           if name.Some? && name.value != "" then strip(name.value) else f.name,
           if parent.Some? then parent else f.parent)
  }

  ghost function Update(folders: Folders, user: Id, x: Id, parent: Option<Id>, name: Option<string>,
                        strip: string -> string): Result<Folders, Error>
  {
    if !Owns(folders, user, x) then Err(NotFound)
    else if parent.Some? && Under(ParentMapOf(folders, user), parent.value, x) then Err(CyclicHierarchy)
    else if parent.Some? && !Owns(folders, user, parent.value) then Err(NotFound)
    else
      var edited := folders[x := Edited(folders[x], parent, name, strip)];
      if UniqueNames(edited) then Ok(edited) else Err(ConstraintViolated)
  }

  /** Step 2 of a deletion: the user's direct subfolders of x move to x's own parent. */
  function Rehung(folders: Folders, user: Id, x: Id): Folders
    requires x in folders
  {
    map y | y in folders ::
      if folders[y].owner == user && folders[y].parent == Some(x)
      then folders[y].(parent := folders[x].parent)
      else folders[y]
  }

  function Unfiled(documents: map<Id, Document>, user: Id, x: Id): map<Id, Document> {
    map d | d in documents ::
      if documents[d] == Document(user, Some(x)) then Document(user, None) else documents[d]
  }

  function Delete(lib: Library, user: Id, x: Id): Result<Library, Error> {
    if !Owns(lib.folders, user, x) then Err(NotFound)
    else
      var rehung := Rehung(lib.folders, user, x);
      if UniqueNames(rehung) then Ok(Library(rehung - {x}, Unfiled(lib.documents, user, x)))
      else Err(ConstraintViolated)
  }

  // ---- The invariant ------------------------------------------------------------------------------

  /** Every parent is a folder of the same user. */
  ghost predicate SameOwner(folders: Folders) {
    forall x :: x in folders && folders[x].parent.Some? ==> Owns(folders, folders[x].owner, folders[x].parent.value)
  }

  ghost predicate Forest(folders: Folders) {
    SameOwner(folders) && Acyclic(Links(folders)) && UniqueNames(folders)
  }

  /** Seen from one user's parent map, a walk is the walk of the whole table. */
  lemma {:induction false} UserWalk(folders: Folders, user: Id, x: Id, n: nat)
    requires SameOwner(folders) && Owns(folders, user, x)
    ensures Climb(ParentMapOf(folders, user), x, n) == Climb(Links(folders), x, n)
    decreases n
  {
    if n > 0 && folders[x].parent.Some? {
      UserWalk(folders, user, folders[x].parent.value, n - 1);
    }
  }

  lemma UserUnder(folders: Folders, user: Id, x: Id, a: Id)
    requires SameOwner(folders) && Owns(folders, user, x)
    ensures Under(ParentMapOf(folders, user), x, a) <==> Under(Links(folders), x, a)
  {
    forall n: nat {
      UserWalk(folders, user, x, n);
    }
    if Under(ParentMapOf(folders, user), x, a) {
      var n: nat :| Climb(ParentMapOf(folders, user), x, n) == Some(a);
      assert Climb(Links(folders), x, n) == Some(a);
    }
    if Under(Links(folders), x, a) {
      var n: nat :| Climb(Links(folders), x, n) == Some(a);
      assert Climb(ParentMapOf(folders, user), x, n) == Some(a);
    }
  }

  /** Each user's own parent map is a forest, so the sidebar shows each of that user's folders once. */
  lemma UserMapAcyclic(folders: Folders, user: Id)
    requires Forest(folders)
    ensures Acyclic(ParentMapOf(folders, user))
  {
    var m := ParentMapOf(folders, user);
    forall x | StrictlyUnder(m, x, x)
      ensures false
    {
      UnderByParent(m, x, x);
      var n: nat :| n > 0 && Climb(m, x, n) == Some(x);
      UserWalk(folders, user, x, n);
      assert StrictlyUnder(Links(folders), x, x);
    }
  }

  /** Upwards from a folder of the table one only meets folders of the table, all of one user. */
  lemma AncestorsOwned(folders: Folders, user: Id, x: Id, a: Id)
    requires SameOwner(folders) && Owns(folders, user, x) && Under(Links(folders), x, a)
    ensures Owns(folders, user, a)
  {
    var n: nat :| Climb(Links(folders), x, n) == Some(a);
    ClosedSetHoldsAncestors(Links(folders), (set y | y in folders && folders[y].owner == user), x, n);
  }

  lemma CreateKeepsForest(folders: Folders, user: Id, newId: Id, parent: Option<Id>, name: string)
    requires Forest(folders) && Create(folders, user, newId, parent, name).Ok?
    ensures Forest(Create(folders, user, newId, parent, name).value)
  {
    var after := Create(folders, user, newId, parent, name).value;
    MoveKeepsForestIff(Links(folders), newId, parent);
    assert Links(after) == Links(folders)[newId := parent];
    if parent.Some? && Under(Links(folders), parent.value, newId) {
      AncestorsOwned(folders, user, parent.value, newId);
    }
    assert Siblings(folders, user, parent, name) == {};
    forall a | a in folders
      ensures folders[a] != Folder(user, name, parent)
    {
      assert a !in Siblings(folders, user, parent, name);
    }
  }

  /**
   A move into one of the user's folders is refused as cyclic exactly when performing it
   would close a cycle in the table.
  */
  lemma CyclicRefusalIsExact(folders: Folders, user: Id, x: Id, parent: Id, name: Option<string>,
      strip: string -> string)
    requires Forest(folders) && Owns(folders, user, x) && Owns(folders, user, parent)
    ensures Update(folders, user, x, Some(parent), name, strip) == Err(CyclicHierarchy) <==>
            !Acyclic(Links(folders[x := Edited(folders[x], Some(parent), name, strip)]))
  {
    UserUnder(folders, user, parent, x);
    MoveKeepsForestIff(Links(folders), x, Some(parent));
    assert Links(folders[x := Edited(folders[x], Some(parent), name, strip)]) == Links(folders)[x := Some(parent)];
  }

  lemma UpdateKeepsForest(folders: Folders, user: Id, x: Id, parent: Option<Id>, name: Option<string>,
      strip: string -> string)
    requires Forest(folders) && Update(folders, user, x, parent, name, strip).Ok?
    ensures Forest(Update(folders, user, x, parent, name, strip).value)
  {
    var after := Update(folders, user, x, parent, name, strip).value;
    if parent.Some? {
      CyclicRefusalIsExact(folders, user, x, parent.value, name, strip);
    } else {
      assert Links(after) == Links(folders);
    }
  }

  /** After step 2 nobody hangs below x any more, so the foreign key's cascade has nothing to take. */
  lemma NothingLeftToCascade(folders: Folders, user: Id, x: Id)
    requires Forest(folders) && Owns(folders, user, x)
    ensures forall y :: y in folders ==> Rehung(folders, user, x)[y].parent != Some(x)
  {
    if folders[x].parent == Some(x) {
      OneStep(Links(folders), x);
    }
  }

  lemma DeletedLinks(folders: Folders, user: Id, x: Id)
    requires Forest(folders) && Owns(folders, user, x)
    ensures Links(Rehung(folders, user, x) - {x}) == Spliced(Links(folders), x)
  {
  }

  /**
   A deletion keeps the ancestor relation between every two surviving folders, and the table
   stays a forest; a document of the folder moves to the root, and every other row is untouched.
  */
  lemma DeleteKeepsHierarchy(lib: Library, user: Id, x: Id)
    requires Forest(lib.folders) && Delete(lib, user, x).Ok?
    ensures var after := Delete(lib, user, x).value;
            && Forest(after.folders)
            && after.folders.Keys == lib.folders.Keys - {x}
            && (forall a, b :: a in after.folders && b in after.folders ==>
                  (Under(Links(after.folders), a, b) <==> Under(Links(lib.folders), a, b)))
            && (forall a :: a in after.folders ==>
                  after.folders[a].(parent := None) == lib.folders[a].(parent := None))
  {
    var after := Delete(lib, user, x).value;
    DeletedLinks(lib.folders, user, x);
    SpliceKeepsAncestors(Links(lib.folders), x);
    NothingLeftToCascade(lib.folders, user, x);
  }

  /** c hangs below x, y beside x (or is x), and both have one name. */
  ghost predicate NamesClash(folders: Folders, x: Id, c: Id, y: Id)
    requires x in folders
  {
    && c in folders && y in folders
    && folders[c].parent == Some(x) && folders[y].parent == folders[x].parent
    && folders[c].name == folders[y].name
  }

  /**
   When a deletion is refused: x hangs below a folder, and one of x's subfolders has the name of a
   folder beside x. That may be x itself, whose row is still there while its subfolders move up.
  */
  lemma DeleteRefusedIffNamesClash(lib: Library, user: Id, x: Id)
    requires Forest(lib.folders) && Owns(lib.folders, user, x)
    ensures Delete(lib, user, x) == Err(ConstraintViolated) <==>
            lib.folders[x].parent.Some? && exists c, y :: NamesClash(lib.folders, x, c, y)
    ensures Delete(lib, user, x).Ok? || Delete(lib, user, x) == Err(ConstraintViolated)
  {
    var folders, rehung := lib.folders, Rehung(lib.folders, user, x);
    var up := folders[x].parent;
    if !UniqueNames(rehung) {
      var a, b :| a in rehung && b in rehung && a != b && rehung[a].parent.Some? && rehung[a] == rehung[b];
      if folders[a].parent == Some(x) && folders[b].parent != Some(x) {
        assert up.Some? && NamesClash(folders, x, a, b);
      } else if folders[b].parent == Some(x) && folders[a].parent != Some(x) {
        assert up.Some? && NamesClash(folders, x, b, a);
      } else {
        assert false;
      }
    }
    if c, y :| up.Some? && NamesClash(folders, x, c, y) {
      if up == Some(x) {
        OneStep(Links(folders), x);
      }
      assert c != y && rehung[c] == rehung[y];
    }
  }

  lemma DeleteLosesNoDocument(lib: Library, user: Id, x: Id)
    requires Delete(lib, user, x).Ok?
    ensures var after := Delete(lib, user, x).value;
            && after.documents.Keys == lib.documents.Keys
            && (forall d :: d in lib.documents ==>
                  && after.documents[d].owner == lib.documents[d].owner
                  && (lib.documents[d] == Document(user, Some(x)) ==> after.documents[d].folder == None)
                  && (lib.documents[d] != Document(user, Some(x)) ==> after.documents[d] == lib.documents[d]))
            && (forall d :: d in lib.documents && lib.documents[d].owner == user ==>
                  after.documents[d].folder != Some(x))
  {
  }

  // ---- When a call is carried out, and what it writes ---------------------------------------------

  /** A folder is created exactly under one's own folder or at the top, under a name not taken there, and as asked. */
  lemma CreateEffect(folders: Folders, user: Id, newId: Id, parent: Option<Id>, name: string)
    ensures var r := Create(folders, user, newId, parent, name);
            && (r.Ok? <==>
                  && (parent.Some? ==> parent.value in folders && folders[parent.value].owner == user)
                  && (forall x :: x in folders ==> folders[x] != Folder(user, name, parent))
                  && newId !in folders)
            && (r.Ok? ==> r.value == folders[newId := Folder(user, name, parent)])
            && (r == Err(NotFound) <==>
                  parent.Some? && !(parent.value in folders && folders[parent.value].owner == user))
  {
    var taken := Siblings(folders, user, parent, name);
    if taken != {} {
      var x := AMember(taken);
      assert folders[x] == Folder(user, name, parent);
    }
    assert forall x :: x in folders && folders[x] == Folder(user, name, parent) ==> x in taken;
  }

  /** The row of x once it is moved under the new parent, if one is given, and renamed, if a name is given. */
  ghost predicate Rewritten(before: Folder, after: Folder, parent: Option<Id>, name: Option<string>,
                            strip: string -> string)
  {
    && after.owner == before.owner
    && (parent.Some? ==> after.parent == parent) && (parent.None? ==> after.parent == before.parent)
    && (name.Some? && name.value != "" ==> after.name == strip(name.value))
    && (name.None? || name.value == "" ==> after.name == before.name)
  }

  /**
   An update is carried out exactly for one's own folder, under one's own folder not at or below it,
   and unless another row in the same folder has the new name; it rewrites that one row.
  */
  lemma UpdateEffect(folders: Folders, user: Id, x: Id, parent: Option<Id>, name: Option<string>,
      strip: string -> string)
    requires Forest(folders)
    ensures var r := Update(folders, user, x, parent, name, strip);
            && (r.Ok? ==>
                  && x in r.value && r.value == folders[x := r.value[x]] && x in folders
                  && Rewritten(folders[x], r.value[x], parent, name, strip))
            && (r.Ok? <==>
                  && Owns(folders, user, x)
                  && (parent.Some? ==> Owns(folders, user, parent.value) && !Under(Links(folders), parent.value, x))
                  && forall row :: Rewritten(folders[x], row, parent, name, strip) && row.parent.Some? ==>
                       forall y :: y in folders && y != x ==> folders[y] != row)
            && (r == Err(NotFound) <==>
                  !Owns(folders, user, x) || (parent.Some? && !Owns(folders, user, parent.value)))
  {
    if Owns(folders, user, x) {
      var row := Edited(folders[x], parent, name, strip);
      var edited := folders[x := row];
      assert forall other :: Rewritten(folders[x], other, parent, name, strip) ==> other == row;
      assert Rewritten(folders[x], row, parent, name, strip);
      if parent.Some? && Owns(folders, user, parent.value) {
        UserUnder(folders, user, parent.value, x);
      }
      if parent.Some? && Under(ParentMapOf(folders, user), parent.value, x) {
        ForeignNotUnder(folders, user, parent.value, x);
      }
      UniqueAfterEdit(folders, x, row);
    }
  }

  lemma ForeignNotUnder(folders: Folders, user: Id, p: Id, x: Id)
    requires Owns(folders, user, x) && Under(ParentMapOf(folders, user), p, x)
    ensures Owns(folders, user, p)
  {
    UnderByParent(ParentMapOf(folders, user), p, x);
  }

  lemma UniqueAfterEdit(folders: Folders, x: Id, row: Folder)
    requires UniqueNames(folders) && x in folders
    ensures UniqueNames(folders[x := row]) <==>
            (row.parent.Some? ==> forall y :: y in folders && y != x ==> folders[y] != row)
  {
    var edited := folders[x := row];
    if row.parent.Some? && exists y :: y in folders && y != x && folders[y] == row {
      var y :| y in folders && y != x && folders[y] == row;
      assert edited[x] == edited[y];
    }
  }

  // ---- Whole runs ---------------------------------------------------------------------------------

  datatype Request =
    | CreateFolder(user: Id, newId: Id, under: Option<Id>, called: string)
    | UpdateFolder(user: Id, folder: Id, to: Option<Id>, renamed: Option<string>)
    | DeleteFolder(user: Id, folder: Id)

  ghost function Apply(lib: Library, r: Request, strip: string -> string): Library {
    match r
    case CreateFolder(user, newId, under, called) =>
      var res := Create(lib.folders, user, newId, under, called);
      if res.Ok? then lib.(folders := res.value) else lib
    case UpdateFolder(user, folder, to, renamed) =>
      var res := Update(lib.folders, user, folder, to, renamed, strip);
      if res.Ok? then lib.(folders := res.value) else lib
    case DeleteFolder(user, folder) =>
      var res := Delete(lib, user, folder);
      if res.Ok? then res.value else lib
  }

  ghost function Run(lib: Library, rs: seq<Request>, strip: string -> string): Library {
    if rs == [] then lib else Apply(Run(lib, rs[..|rs| - 1], strip), rs[|rs| - 1], strip)
  }

  /** Refusals do happen: a folder in a folder cannot be deleted while it holds one of its own name. */
  lemma ChildNamedLikeParent(documents: map<Id, Document>, strip: string -> string, user: Id, top: string, name: string)
    ensures var lib := Run(Library(map[], documents),
                           [CreateFolder(user, 1, None, top), CreateFolder(user, 2, Some(1), name),
                            CreateFolder(user, 3, Some(2), name)],
                           strip);
            Owns(lib.folders, user, 2) && Delete(lib, user, 2) == Err(ConstraintViolated)
  {
    var empty := Library(map[], documents);
    var one := empty.(folders := map[1 := Folder(user, top, None)]);
    var two := empty.(folders := one.folders[2 := Folder(user, name, Some(1))]);
    var three := empty.(folders := two.folders[3 := Folder(user, name, Some(2))]);
    Created(empty, user, 1, None, top, strip);
    Created(one, user, 2, Some(1), name, strip);
    Created(two, user, 3, Some(2), name, strip);
    ThreeRequests(empty, CreateFolder(user, 1, None, top), CreateFolder(user, 2, Some(1), name),
                  CreateFolder(user, 3, Some(2), name), strip);
    assert Rehung(three.folders, user, 2)[2] == Rehung(three.folders, user, 2)[3];
  }

  /** Any sequence of calls by any users, accepted or refused, starting from no folder, keeps a forest. */
  lemma {:induction false} EveryRunKeepsForest(documents: map<Id, Document>, rs: seq<Request>, strip: string -> string)
    ensures Forest(Run(Library(map[], documents), rs, strip).folders)
    ensures Run(Library(map[], documents), rs, strip).documents.Keys == documents.Keys
  {
    if rs == [] {
      forall x
        ensures !StrictlyUnder(Links(map[]), x, x)
      {
        UnderByParent(Links(map[]), x, x);
      }
    } else {
      EveryRunKeepsForest(documents, rs[..|rs| - 1], strip);
      var lib := Run(Library(map[], documents), rs[..|rs| - 1], strip);
      match rs[|rs| - 1]
      case CreateFolder(user, newId, under, called) =>
        if Create(lib.folders, user, newId, under, called).Ok? {
          CreateKeepsForest(lib.folders, user, newId, under, called);
        }
      case UpdateFolder(user, folder, to, renamed) =>
        if Update(lib.folders, user, folder, to, renamed, strip).Ok? {
          UpdateKeepsForest(lib.folders, user, folder, to, renamed, strip);
        }
      case DeleteFolder(user, folder) =>
        if Delete(lib, user, folder).Ok? {
          DeleteKeepsHierarchy(lib, user, folder);
        }
    }
  }

  /** After any run the sidebar of any user lists each of that user's folders exactly once. */
  lemma EveryRunShowsEveryFolderOnce(documents: map<Id, Document>, rs: seq<Request>, strip: string -> string,
                                     user: Id, ids: seq<Id>)
    requires Enumerates(ids, ParentMapOf(Run(Library(map[], documents), rs, strip).folders, user))
    ensures var folders := Run(Library(map[], documents), rs, strip).folders;
            var m := ParentMapOf(folders, user);
            && Acyclic(m)
            && NoDuplicates(FlattenAll(BuildForest(m, ids)))
            && forall y :: y in FlattenAll(BuildForest(m, ids)) <==> Owns(folders, user, y)
  {
    var folders := Run(Library(map[], documents), rs, strip).folders;
    EveryRunKeepsForest(documents, rs, strip);
    UserMapAcyclic(folders, user);
    ForestListsEveryFolderOnce(ParentMapOf(folders, user), ids);
  }

  /** A call by one user changes no row of another. */
  lemma OtherUsersUntouched(lib: Library, r: Request, strip: string -> string, other: Id)
    requires r.user != other
    ensures var after := Apply(lib, r, strip);
            && (forall x :: Owns(lib.folders, other, x) <==> Owns(after.folders, other, x))
            && (forall x :: Owns(lib.folders, other, x) ==> after.folders[x] == lib.folders[x])
            && (forall d :: d in lib.documents && lib.documents[d].owner == other ==>
                  d in after.documents && after.documents[d] == lib.documents[d])
  {
  }

  // ---- Names at the top level -----------------------------------------------------------------------

  /** What the uniqueness constraint leaves open: no user has two top-level folders of one name. */
  predicate TopNamesUnique(folders: Folders) {
    forall a, b :: a in folders && b in folders && a != b && folders[a].parent.None? ==> folders[a] != folders[b]
  }

  /** y is another top-level folder of x's owner, with the given name. */
  ghost predicate TopTwin(folders: Folders, x: Id, name: string, y: Id)
    requires x in folders
  {
    y in folders && y != x && folders[y] == Folder(folders[x].owner, name, None)
  }

  /** A top-level folder stays there and gets a name that another one has. */
  ghost predicate RenameDoubles(folders: Folders, user: Id, x: Id, to: Option<Id>, renamed: Option<string>,
                                strip: string -> string)
  {
    && Owns(folders, user, x) && folders[x].parent.None? && to.None?
    && renamed.Some? && renamed.value != ""
    && exists y :: TopTwin(folders, x, strip(renamed.value), y)
  }

  /** A top-level folder goes, and a child of it comes up beside another one of the child's name. */
  ghost predicate DeleteDoubles(folders: Folders, user: Id, x: Id) {
    && Owns(folders, user, x) && folders[x].parent.None?
    && exists c, y :: c in folders && folders[c].parent == Some(x) && TopTwin(folders, x, folders[c].name, y)
  }

  ghost predicate Doubles(lib: Library, r: Request, strip: string -> string) {
    match r
    case CreateFolder(_, _, _, _) => false
    case UpdateFolder(user, folder, to, renamed) => RenameDoubles(lib.folders, user, folder, to, renamed, strip)
    case DeleteFolder(user, folder) => DeleteDoubles(lib.folders, user, folder)
  }

  lemma CreateKeepsTopNames(folders: Folders, user: Id, newId: Id, parent: Option<Id>, name: string)
    requires TopNamesUnique(folders) && Create(folders, user, newId, parent, name).Ok?
    ensures TopNamesUnique(Create(folders, user, newId, parent, name).value)
  {
    var taken := Siblings(folders, user, parent, name);
    assert taken == {};
    assert forall x :: x in folders && folders[x] == Folder(user, name, parent) ==> x in taken;
  }

  /** An accepted update doubles a name at the top exactly if it renames a top-level folder that stays there. */
  lemma UpdateKeepsTopNamesIff(folders: Folders, user: Id, x: Id, to: Option<Id>, renamed: Option<string>,
                               strip: string -> string)
    requires Forest(folders) && TopNamesUnique(folders) && Owns(folders, user, x)
    requires Update(folders, user, x, to, renamed, strip).Ok?
    ensures TopNamesUnique(Update(folders, user, x, to, renamed, strip).value) <==>
            !RenameDoubles(folders, user, x, to, renamed, strip)
  {
    var after := folders[x := Edited(folders[x], to, renamed, strip)];
    if RenameDoubles(folders, user, x, to, renamed, strip) {
      var y :| TopTwin(folders, x, strip(renamed.value), y);
      assert after[x] == after[y];
    }
    if !TopNamesUnique(after) {
      var a, b :| a in after && b in after && a != b && after[a].parent.None? && after[a] == after[b];
      var y := if a == x then b else a;
      assert after[x] == after[y] == folders[y];
      assert TopTwin(folders, x, after[x].name, y);
    }
  }

  /** A renaming at the top is never refused, so it doubles a name whenever there is one to double. */
  lemma TopRenameAccepted(folders: Folders, user: Id, x: Id, renamed: Option<string>, strip: string -> string)
    requires Forest(folders) && Owns(folders, user, x) && folders[x].parent.None?
    ensures Update(folders, user, x, None, renamed, strip).Ok?
  {
  }

  lemma TopDeleteAccepted(lib: Library, user: Id, x: Id)
    requires Forest(lib.folders) && Owns(lib.folders, user, x) && lib.folders[x].parent.None?
    ensures Delete(lib, user, x).Ok?
  {
    DeleteRefusedIffNamesClash(lib, user, x);
  }

  lemma DeleteKeepsTopNamesIff(lib: Library, user: Id, x: Id)
    requires Forest(lib.folders) && TopNamesUnique(lib.folders) && Delete(lib, user, x).Ok?
    ensures TopNamesUnique(Delete(lib, user, x).value.folders) <==> !DeleteDoubles(lib.folders, user, x)
  {
    var folders, after := lib.folders, Delete(lib, user, x).value.folders;
    NothingLeftToCascade(folders, user, x);
    if DeleteDoubles(folders, user, x) {
      var c, y :| c in folders && folders[c].parent == Some(x) && TopTwin(folders, x, folders[c].name, y);
      assert after[c] == after[y];
    }
    if !TopNamesUnique(after) {
      var a, b :| a in after && b in after && a != b && after[a].parent.None? && after[a] == after[b];
      LiftedTwin(folders, user, x, a, b);
    }
  }

  /** Of two folders that come to be twins at the top one came up from x, and the other was there. */
  lemma LiftedTwin(folders: Folders, user: Id, x: Id, a: Id, b: Id)
    requires Forest(folders) && TopNamesUnique(folders) && Owns(folders, user, x)
    requires a in folders && b in folders && a != b && a != x && b != x
    requires var rehung := Rehung(folders, user, x); rehung[a].parent.None? && rehung[a] == rehung[b]
    ensures DeleteDoubles(folders, user, x)
  {
    if folders[a].parent == Some(x) && folders[b].parent != Some(x) {
      assert TopTwin(folders, x, folders[a].name, b);
    } else if folders[b].parent == Some(x) && folders[a].parent != Some(x) {
      assert TopTwin(folders, x, folders[b].name, a);
    } else {
      assert false;
    }
  }

  /** Exactly the requests of the two kinds above double a name at the top level. */
  lemma TopNamesUniqueIff(lib: Library, r: Request, strip: string -> string)
    requires Forest(lib.folders) && TopNamesUnique(lib.folders)
    ensures TopNamesUnique(Apply(lib, r, strip).folders) <==> !Doubles(lib, r, strip)
  {
    match r
    case CreateFolder(user, newId, under, called) =>
      if Create(lib.folders, user, newId, under, called).Ok? {
        CreateKeepsTopNames(lib.folders, user, newId, under, called);
      }
    case UpdateFolder(user, folder, to, renamed) =>
      if Update(lib.folders, user, folder, to, renamed, strip).Ok? {
        UpdateKeepsTopNamesIff(lib.folders, user, folder, to, renamed, strip);
      } else if RenameDoubles(lib.folders, user, folder, to, renamed, strip) {
        TopRenameAccepted(lib.folders, user, folder, renamed, strip);
      }
    case DeleteFolder(user, folder) =>
      if Delete(lib, user, folder).Ok? {
        DeleteKeepsTopNamesIff(lib, user, folder);
      } else if DeleteDoubles(lib.folders, user, folder) {
        TopDeleteAccepted(lib, user, folder);
      }
  }

  ghost predicate SomeRequestDoubles(lib: Library, rs: seq<Request>, strip: string -> string) {
    rs != [] &&
    (SomeRequestDoubles(lib, rs[..|rs| - 1], strip) || Doubles(Run(lib, rs[..|rs| - 1], strip), rs[|rs| - 1], strip))
  }

  ghost predicate AlwaysTopUnique(lib: Library, rs: seq<Request>, strip: string -> string) {
    && TopNamesUnique(Run(lib, rs, strip).folders)
    && (rs == [] || AlwaysTopUnique(lib, rs[..|rs| - 1], strip))
  }

  /** The names at the top stay unique throughout a run if and only if no request in it doubles one. */
  lemma {:induction false} RunKeepsTopNamesIff(documents: map<Id, Document>, rs: seq<Request>, strip: string -> string)
    ensures AlwaysTopUnique(Library(map[], documents), rs, strip) <==>
            !SomeRequestDoubles(Library(map[], documents), rs, strip)
  {
    if rs != [] {
      var empty := Library(map[], documents);
      RunKeepsTopNamesIff(documents, rs[..|rs| - 1], strip);
      EveryRunKeepsForest(documents, rs[..|rs| - 1], strip);
      if AlwaysTopUnique(empty, rs[..|rs| - 1], strip) {
        assert TopNamesUnique(Run(empty, rs[..|rs| - 1], strip).folders);
        TopNamesUniqueIff(Run(empty, rs[..|rs| - 1], strip), rs[|rs| - 1], strip);
      }
    }
  }

  /**
   The uniqueness check of a creation finds several rows, which it is not written for, exactly if
   a name is doubled.
   */
  lemma SeveralRowsIff(folders: Folders)
    requires Forest(folders)
    ensures (exists user, newId, parent, name :: Create(folders, user, newId, parent, name) == Err(SeveralRows)) <==>
            !TopNamesUnique(folders)
  {
    if user, newId, parent, name :| Create(folders, user, newId, parent, name) == Err(SeveralRows) {
      var taken := Siblings(folders, user, parent, name);
      TwoMembers(taken);
      var a, b :| a in taken && b in taken && a != b;
      assert folders[a] == folders[b];
    }
    if !TopNamesUnique(folders) {
      var a, b :| a in folders && b in folders && a != b && folders[a].parent.None? && folders[a] == folders[b];
      var taken := Siblings(folders, folders[a].owner, None, folders[a].name);
      SubsetNotLarger({a, b}, taken);
      assert Create(folders, folders[a].owner, a, None, folders[a].name) == Err(SeveralRows);
    }
  }

  lemma TwoMembers(s: set<Id>)
    requires |s| > 1
    ensures exists a, b :: a in s && b in s && a != b
  {
    var a := AMember(s);
    assert |s - {a}| == |s| - 1;
    var b := AMember(s - {a});
    assert a in s && b in s && a != b;
  }

  /** It happens: deleting a folder lifts a twin of another one to the top, and the next creation of that name fails. */
  lemma LiftedTwinBreaksCreation(documents: map<Id, Document>, strip: string -> string, user: Id, n: string, m: string)
    requires n != m
    ensures var lib := Run(Library(map[], documents),
                           [CreateFolder(user, 1, None, n), CreateFolder(user, 2, None, m),
                            CreateFolder(user, 3, Some(2), n), DeleteFolder(user, 2)],
                           strip);
            Create(lib.folders, user, 4, None, n) == Err(SeveralRows)
  {
    var empty := Library(map[], documents);
    var r1, r2 := CreateFolder(user, 1, None, n), CreateFolder(user, 2, None, m);
    var r3, r4 := CreateFolder(user, 3, Some(2), n), DeleteFolder(user, 2);
    var one := empty.(folders := map[1 := Folder(user, n, None)]);
    var two := empty.(folders := one.folders[2 := Folder(user, m, None)]);
    var three := empty.(folders := two.folders[3 := Folder(user, n, Some(2))]);
    Created(empty, user, 1, None, n, strip);
    Created(one, user, 2, None, m, strip);
    Created(two, user, 3, Some(2), n, strip);
    FourRequests(empty, r1, r2, r3, r4, strip);
    TwinLifted(three, user, n, m);
  }

  lemma Created(lib: Library, user: Id, newId: Id, parent: Option<Id>, name: string, strip: string -> string)
    requires newId !in lib.folders && (parent.Some? ==> Owns(lib.folders, user, parent.value))
    requires forall x :: x in lib.folders ==> lib.folders[x] != Folder(user, name, parent)
    ensures Apply(lib, CreateFolder(user, newId, parent, name), strip) ==
            lib.(folders := lib.folders[newId := Folder(user, name, parent)])
  {
    var taken := Siblings(lib.folders, user, parent, name);
    assert |taken| == 0 by {
      if taken != {} {
        var x := AMember(taken);
        assert false;
      }
    }
  }

  lemma FourRequests(lib: Library, r1: Request, r2: Request, r3: Request, r4: Request, strip: string -> string)
    ensures Run(lib, [r1, r2, r3, r4], strip) ==
            Apply(Apply(Apply(Apply(lib, r1, strip), r2, strip), r3, strip), r4, strip)
  {
    assert [r1, r2, r3, r4][..3] == [r1, r2, r3];
    ThreeRequests(lib, r1, r2, r3, strip);
  }

  lemma ThreeRequests(lib: Library, r1: Request, r2: Request, r3: Request, strip: string -> string)
    ensures Run(lib, [r1, r2, r3], strip) == Apply(Apply(Apply(lib, r1, strip), r2, strip), r3, strip)
  {
    var one, two := [r1], [r1, r2];
    assert [r1, r2, r3][..2] == two && two[..1] == one && one[..0] == [];
    assert Run(lib, one, strip) == Apply(lib, r1, strip);
    assert Run(lib, two, strip) == Apply(Run(lib, one, strip), r2, strip);
  }

  lemma TwinLifted(lib: Library, user: Id, n: string, m: string)
    requires n != m
    requires lib.folders == map[1 := Folder(user, n, None)][2 := Folder(user, m, None)][3 := Folder(user, n, Some(2))]
    ensures Delete(lib, user, 2).Ok?
    ensures Create(Delete(lib, user, 2).value.folders, user, 4, None, n) == Err(SeveralRows)
  {
    var rehung := Rehung(lib.folders, user, 2);
    assert forall y :: y in rehung ==> rehung[y].parent.None?;
    var after := rehung - {2};
    assert Delete(lib, user, 2).value.folders == after;
    TwinsCounted(after, user, n);
  }

  lemma TwinsCounted(folders: Folders, user: Id, n: string)
    requires 1 in folders && folders[1] == Folder(user, n, None)
    requires 3 in folders && folders[3] == Folder(user, n, None)
    ensures Create(folders, user, 4, None, n) == Err(SeveralRows)
  {
    SubsetNotLarger({1, 3}, Siblings(folders, user, None, n));
  }

  // ---- The service --------------------------------------------------------------------------------

  class FolderService {
    var folders: Folders
    var documents: map<Id, Document>
    const strip: string -> string

    constructor (strip: string -> string, documents: map<Id, Document>)
      ensures folders == map[] && this.documents == documents && this.strip == strip
    {
      folders := map[];
      this.documents := documents;
      this.strip := strip;
    }

    function Tables(): Library
      reads this
    {
      Library(folders, documents)
    }

    method CreateFolder(user: Id, newId: Id, parent: Option<Id>, name: string) returns (r: Result<Id, Error>)
      modifies this
      ensures Tables() == Apply(old(Tables()), Request.CreateFolder(user, newId, parent, name), strip)
      ensures r == match Create(old(folders), user, newId, parent, name)
                   case Ok(_) => Ok(newId)
                   case Err(e) => Err(e)
    {
      if parent.Some? && !Owns(folders, user, parent.value) {
        return Err(NotFound);
      }
      var existing := Siblings(folders, user, parent, name);
      if |existing| > 1 {
        return Err(SeveralRows);
      }
      if |existing| == 1 {
        return Err(NameTaken);
      }
      if newId in folders {
        return Err(ConstraintViolated);
      }
      folders := folders[newId := Folder(user, name, parent)];
      return Ok(newId);
    }

    method UpdateFolder(user: Id, x: Id, parent: Option<Id>, name: Option<string>) returns (r: Result<Folder, Error>)
      modifies this
      ensures Tables() == Apply(old(Tables()), Request.UpdateFolder(user, x, parent, name), strip)
      ensures r == match Update(old(folders), user, x, parent, name, strip)
                   case Ok(after) => Ok(after[x])
                   case Err(e) => Err(e)
    {
      if !Owns(folders, user, x) {
        return Err(NotFound);
      }
      var folder := folders[x];
      if parent.Some? {
        var cyclic := DetectFolderCycle(x, parent, ParentMapOf(folders, user));
        if cyclic {
          return Err(CyclicHierarchy);
        }
        if !Owns(folders, user, parent.value) {
          return Err(NotFound);
        }
        folder := folder.(parent := parent);
      }
      if name.Some? && name.value != "" {
        folder := folder.(name := strip(name.value));
      }
      var edited := folders[x := folder];
      if !UniqueNames(edited) {
        return Err(ConstraintViolated);
      }
      folders := edited;
      return Ok(folder);
    }

    method DeleteFolder(user: Id, x: Id) returns (r: Result<string, Error>)
      modifies this
      ensures Tables() == Apply(old(Tables()), Request.DeleteFolder(user, x), strip)
      ensures r == match Delete(old(Tables()), user, x)
                   case Ok(_) => Ok(old(folders)[x].name)
                   case Err(e) => Err(e)
    {
      if !Owns(folders, user, x) {
        return Err(NotFound);
      }
      var name := folders[x].name;
      var unfiled := UnfileDocuments(user, x);
      var rehung := RehangSubfolders(user, x, folders[x].parent);
      if !UniqueNames(rehung) {
        return Err(ConstraintViolated);
      }
      documents := unfiled;
      folders := rehung - {x};
      return Ok(name);
    }

    /** The first bulk update, row by row and not yet committed: the user's documents in x go to the root. */
    method UnfileDocuments(user: Id, x: Id) returns (updated: map<Id, Document>)
      ensures updated == Unfiled(documents, user, x)
    {
      updated := documents;
      var todo := documents.Keys;
      while todo != {}
        invariant todo <= documents.Keys == updated.Keys
        invariant forall d :: d in todo ==> updated[d] == documents[d]
        invariant forall d :: d in updated && d !in todo ==>
                    && updated[d].owner == documents[d].owner
                    && updated[d].folder ==
                       if documents[d].owner == user && documents[d].folder == Some(x) then None
                       else documents[d].folder
      {
        ghost var member := AMember(todo);
        var d :| d in todo;
        if updated[d].owner == user && updated[d].folder == Some(x) {
          updated := updated[d := updated[d].(folder := None)];
        }
        todo := todo - {d};
      }
      assert forall d :: d in updated ==> updated[d] == Unfiled(documents, user, x)[d];
    }

    /** The second: the user's direct subfolders of x go to the given parent. */
    method RehangSubfolders(user: Id, x: Id, parent: Option<Id>) returns (updated: Folders)
      requires x in folders && parent == folders[x].parent
      ensures updated == Rehung(folders, user, x)
    {
      updated := folders;
      var todo := folders.Keys;
      while todo != {}
        invariant todo <= folders.Keys == updated.Keys
        invariant forall y :: y in todo ==> updated[y] == folders[y]
        invariant forall y :: y in updated && y !in todo ==>
                    && updated[y].owner == folders[y].owner && updated[y].name == folders[y].name
                    && updated[y].parent ==
                       if folders[y].owner == user && folders[y].parent == Some(x) then parent else folders[y].parent
      {
        ghost var member := AMember(todo);
        var y :| y in todo;
        if updated[y].owner == user && updated[y].parent == Some(x) {
          updated := updated[y := updated[y].(parent := parent)];
        }
        todo := todo - {y};
      }
      assert forall y :: y in updated ==> updated[y] == Rehung(folders, user, x)[y];
    }

    /** Walks up from target, row by row, until ancestor turns up, the chain ends, or a folder repeats. */
    method IsDescendant(user: Id, ancestor: Id, target: Id) returns (found: bool)
      ensures found <==> Under(ParentMapOf(folders, user), target, ancestor)
    {
      var m := ParentMapOf(folders, user);
      var curr: Option<Id> := Some(target);
      var visited: set<Id> := {};
      ghost var steps: nat := 0;
      while curr.Some?
        invariant m == ParentMapOf(folders, user)
        invariant Climb(m, target, steps) == curr
        invariant ancestor !in visited && visited <= m.Keys
        invariant target in visited || curr == Some(target)
        invariant forall v :: v in visited && Parent(m, v).Some? ==>
                    Parent(m, v).value in visited || Parent(m, v) == curr
        decreases m.Keys - visited
      {
        if curr.value in visited {
          break;
        }
        if curr.value == ancestor {
          return true;
        }
        if !Owns(folders, user, curr.value) {
          OtherWalkStops(m, visited, target, curr.value, ancestor);
          return false;
        }
        ClimbAdd(m, target, steps, 1);
        assert Climb(m, curr.value, 1) == Parent(m, curr.value);
        visited := visited + {curr.value};
        curr := folders[curr.value].parent;
        steps := steps + 1;
      }
      if Under(m, target, ancestor) {
        var n: nat :| Climb(m, target, n) == Some(ancestor);
        ClosedSetHoldsAncestors(m, visited, target, n);
      }
      return false;
    }

    lemma OtherWalkStops(m: ParentMap, visited: set<Id>, target: Id, curr: Id, ancestor: Id)
      requires ancestor !in visited && ancestor != curr && curr !in m
      requires target in visited || curr == target
      requires forall v :: v in visited && Parent(m, v).Some? ==>
                 Parent(m, v).value in visited || Parent(m, v) == Some(curr)
      ensures !Under(m, target, ancestor)
    {
      if Under(m, target, ancestor) {
        var n: nat :| Climb(m, target, n) == Some(ancestor);
        ClosedSetHoldsAncestors(m, visited + {curr}, target, n);
      }
    }
  }
}
