// Folders as rows with parent links: creation, renaming and re-parenting, deletion, and filing.
module FolderForest {
  import opened Common

  type Id = string
  type Account = string

  const MAX_WALK := 100

  datatype Folder = Folder(owner: Account, name: string, parent: Option<Id>)

  datatype File = File(owner: Account, folder: Option<Id>)

  datatype Drive = Drive(folders: map<Id, Folder>, files: map<Id, File>)

  datatype Refusal = NotFound | OwnParent | Cycle | TooDeep | NameTaken | HasChildren

  /** What an update says about the parent. */
  datatype ParentPatch = Keep | ToRoot | Under(parent: Id)

  type Folders = map<Id, Folder>

  predicate Owned(folders: Folders, owner: Account, id: Id) {
    id in folders && folders[id].owner == owner
  }

  // ---------- The operations ----------

  /** The walk over ancestors from `current`, step `i`; `None` when the parent is allowed. */
  function Walk(folders: Folders, owner: Account, folder: Id, current: Option<Id>, i: nat): Option<Refusal>
    requires i <= MAX_WALK
    decreases MAX_WALK - i
  {
    if current.None? then None
    else if i == MAX_WALK then Some(TooDeep)
    else if current.value == folder then Some(Cycle)
    else if !Owned(folders, owner, current.value) then Some(NotFound)
    else Walk(folders, owner, folder, folders[current.value].parent, i + 1)
  }

  /** The unique index on owner, parent and name; rows without a parent never collide. */
  predicate Taken(folders: Folders, except: Option<Id>, f: Folder) {
    f.parent.Some? && exists id :: id in folders && Some(id) != except && folders[id] == f
  }

  function Created(d: Drive, id: Id, owner: Account, name: string, parent: Option<Id>): Result<Drive, Refusal>
    requires id !in d.folders
  {
    if parent.Some? && !Owned(d.folders, owner, parent.value) then Err(NotFound)
    else if Taken(d.folders, None, Folder(owner, name, parent)) then Err(NameTaken)
    else Ok(d.(folders := d.folders[id := Folder(owner, name, parent)]))
  }

  function Patched(f: Folder, name: Option<string>, patch: ParentPatch): Folder {
    f.(name := name.GetOr(f.name),
       parent := match patch case Keep => f.parent case ToRoot => None case Under(p) => Some(p))
  }

  function Updated(d: Drive, owner: Account, id: Id, name: Option<string>, patch: ParentPatch): Result<Drive, Refusal> {
    if !Owned(d.folders, owner, id) then Err(NotFound)
    else if patch == Under(id) then Err(OwnParent)
    else
      var refusal := if patch.Under? then Walk(d.folders, owner, id, Some(patch.parent), 0) else None;
      var f := Patched(d.folders[id], name, patch);
      if refusal.Some? then Err(refusal.value)
      else if Taken(d.folders, Some(id), f) then Err(NameTaken)
      else Ok(d.(folders := d.folders[id := f]))
  }

  /** The row goes; the foreign key clears the parent of any folder still pointing at it. */
  function RemoveFolder(folders: Folders, id: Id): Folders {
    map x | x in folders && x != id :: if folders[x].parent == Some(id) then folders[x].(parent := None) else folders[x]
  }

  function ReleaseFiles(files: map<Id, File>, owner: Account, id: Id): map<Id, File> {
    map x | x in files :: if files[x] == File(owner, Some(id)) then File(owner, None) else files[x]
  }

  predicate HasChild(folders: Folders, owner: Account, id: Id) {
    exists x :: x in folders && folders[x].owner == owner && folders[x].parent == Some(id)
  }

  function Deleted(d: Drive, owner: Account, id: Id): Result<Drive, Refusal> {
    if !Owned(d.folders, owner, id) then Err(NotFound)
    else if HasChild(d.folders, owner, id) then Err(HasChildren)
    else Ok(Drive(RemoveFolder(d.folders, id), ReleaseFiles(d.files, owner, id)))
  }

  function Filed(d: Drive, owner: Account, file: Id, folder: Option<Id>): Result<Drive, Refusal> {
    if file !in d.files || d.files[file].owner != owner then Err(NotFound)
    else if folder.Some? && !Owned(d.folders, owner, folder.value) then Err(NotFound)
    else Ok(d.(files := d.files[file := File(owner, folder)]))
  }

  // ---------- Forests ----------

  /** From `id` at most `n` parent links, all inside the owner's folders, lead to a folder without parent. */
  predicate Rooted(folders: Folders, owner: Account, id: Id, n: nat)
    decreases n
  {
    && Owned(folders, owner, id)
    && (folders[id].parent.Some? ==> n > 0 && Rooted(folders, owner, folders[id].parent.value, n - 1))
  }

  /** No dangling link, no link across owners, no cycle. */
  ghost predicate Forest(folders: Folders) {
    forall id :: id in folders ==> exists n: nat :: Rooted(folders, folders[id].owner, id, n)
  }

  /** `y` is the `n`-th ancestor of `x`. */
  predicate Ancestor(folders: Folders, x: Id, y: Id, n: nat)
    decreases n
  {
    if n == 0 then x == y
    else x in folders && folders[x].parent.Some? && Ancestor(folders, folders[x].parent.value, y, n - 1)
  }

  /** `y` is `x` or above it. */
  ghost predicate Reaches(folders: Folders, x: Id, y: Id) {
    exists n: nat :: Ancestor(folders, x, y, n)
  }

  ghost predicate Filing(d: Drive) {
    forall x :: x in d.files && d.files[x].folder.Some? ==> Owned(d.folders, d.files[x].owner, d.files[x].folder.value)
  }

  lemma {:induction false} RootedMonotone(folders: Folders, owner: Account, id: Id, n: nat, m: nat)
    requires Rooted(folders, owner, id, n) && n <= m
    ensures Rooted(folders, owner, id, m)
    decreases n
  {
    if folders[id].parent.Some? {
      RootedMonotone(folders, owner, folders[id].parent.value, n - 1, m - 1);
    }
  }

  lemma {:induction false} AncestorsAreCloser(folders: Folders, owner: Account, x: Id, y: Id, n: nat, k: nat)
    requires Rooted(folders, owner, x, n) && Ancestor(folders, x, y, k)
    ensures k <= n && Rooted(folders, owner, y, n - k)
    decreases k
  {
    if k > 0 {
      AncestorsAreCloser(folders, owner, folders[x].parent.value, y, n - 1, k - 1);
    }
  }

  lemma {:induction false} CycleIsRootless(folders: Folders, owner: Account, x: Id, k: nat, n: nat)
    requires k > 0 && Ancestor(folders, x, x, k)
    ensures !Rooted(folders, owner, x, n)
    decreases n
  {
    if Rooted(folders, owner, x, n) {
      AncestorsAreCloser(folders, owner, x, x, n, k);
      CycleIsRootless(folders, owner, x, k, n - k);
    }
  }

  /** In a forest no folder is its own ancestor, and every ancestor is a folder of the same owner. */
  lemma ForestHasNoCycle(folders: Folders, x: Id, y: Id, k: nat)
    requires Forest(folders) && x in folders && Ancestor(folders, x, y, k)
    ensures Owned(folders, folders[x].owner, y) && (k > 0 ==> x != y)
  {
    var n: nat :| Rooted(folders, folders[x].owner, x, n);
    AncestorsAreCloser(folders, folders[x].owner, x, y, n, k);
    if k > 0 && x == y {
      CycleIsRootless(folders, folders[x].owner, x, k, n);
    }
  }

  lemma ReachesStep(folders: Folders, x: Id, y: Id)
    requires x in folders && folders[x].parent.Some?
    ensures Reaches(folders, x, y) <==> x == y || Reaches(folders, folders[x].parent.value, y)
  {
    var p := folders[x].parent.value;
    if n: nat :| Ancestor(folders, p, y, n) {
      assert Ancestor(folders, x, y, n + 1);
    }
    if x == y { assert Ancestor(folders, x, y, 0); }
    if n: nat :| Ancestor(folders, x, y, n) {
      if n > 0 { assert Ancestor(folders, p, y, n - 1); }
    }
  }

  // ---------- Writing one parent link ----------

  /** A chain that avoids `f` is not affected by changing `f`. */
  lemma {:induction false} ChainAvoiding(folders: Folders, owner: Account, f: Id, row: Folder, x: Id, n: nat)
    requires Rooted(folders, owner, x, n) && !Reaches(folders, x, f)
    ensures Rooted(folders[f := row], owner, x, n)
    decreases n
  {
    assert !Ancestor(folders, x, f, 0);
    if folders[x].parent.Some? {
      var p := folders[x].parent.value;
      ReachesStep(folders, x, f);
      ChainAvoiding(folders, owner, f, row, p, n - 1);
    }
  }

  lemma {:induction false} ChainThrough(folders: Folders, owner: Account, f: Id, row: Folder, x: Id, n: nat, m: nat)
    requires Rooted(folders, owner, x, n) && Rooted(folders[f := row], owner, f, m)
    ensures Rooted(folders[f := row], owner, x, n + m)
    decreases n
  {
    if x == f {
      RootedMonotone(folders[f := row], owner, f, m, n + m);
    } else if folders[x].parent.Some? {
      ChainThrough(folders, owner, f, row, folders[x].parent.value, n - 1, m);
    }
  }

  lemma RewriteKeepsForest(folders: Folders, f: Id, row: Folder, m: nat)
    requires Forest(folders) && (f in folders ==> folders[f].owner == row.owner)
    requires Rooted(folders[f := row], row.owner, f, m)
    requires f !in folders ==> forall x :: x in folders ==> folders[x].parent != Some(f)
    ensures Forest(folders[f := row])
  {
    var after := folders[f := row];
    forall id | id in after ensures exists n: nat :: Rooted(after, after[id].owner, id, n) {
      if id == f {
        assert Rooted(after, row.owner, f, m);
      } else {
        var owner := folders[id].owner;
        var n: nat :| Rooted(folders, owner, id, n);
        if Reaches(folders, id, f) {
          var k: nat :| Ancestor(folders, id, f, k);
          AncestorsAreCloser(folders, owner, id, f, n, k);
          ChainThrough(folders, owner, f, row, id, n, m);
          assert Rooted(after, owner, id, n + m);
        } else {
          ChainAvoiding(folders, owner, f, row, id, n);
          assert Rooted(after, owner, id, n);
        }
      }
    }
  }

  lemma {:induction false} AncestorSurvives(folders: Folders, f: Id, row: Folder, x: Id, k: nat)
    requires Ancestor(folders, x, f, k) && forall j: nat :: j < k ==> !Ancestor(folders, x, f, j)
    ensures Ancestor(folders[f := row], x, f, k)
    decreases k
  {
    if k > 0 {
      var p := folders[x].parent.value;
      assert !Ancestor(folders, x, f, 0);
      forall j: nat | j < k - 1 ensures !Ancestor(folders, p, f, j) {
        assert !Ancestor(folders, x, f, j + 1);
      }
      AncestorSurvives(folders, f, row, p, k - 1);
    }
  }

  lemma {:induction false} FirstMeeting(folders: Folders, x: Id, f: Id, k: nat) returns (j: nat)
    requires Ancestor(folders, x, f, k)
    ensures Ancestor(folders, x, f, j) && forall i: nat :: i < j ==> !Ancestor(folders, x, f, i)
    decreases k
  {
    if i: nat :| i < k && Ancestor(folders, x, f, i) {
      j := FirstMeeting(folders, x, f, i);
    } else {
      j := k;
    }
  }

  /**
   * Whoever checks, and whenever: writing the link `f -> p` keeps the forest exactly when, at the moment of the
   * write, `f` is not `p` or an ancestor of `p`.
   */
  lemma LinkKeepsForestIff(folders: Folders, f: Id, p: Id, row: Folder)
    requires Forest(folders) && f in folders && row.owner == folders[f].owner && row.parent == Some(p)
    requires Owned(folders, row.owner, p)
    ensures Forest(folders[f := row]) <==> !Reaches(folders, p, f)
  {
    var after, owner := folders[f := row], row.owner;
    if k: nat :| Ancestor(folders, p, f, k) {
      var j := FirstMeeting(folders, p, f, k);
      AncestorSurvives(folders, f, row, p, j);
      assert Ancestor(after, f, f, j + 1);
      if Forest(after) {
        var n: nat :| Rooted(after, after[f].owner, f, n);
        CycleIsRootless(after, owner, f, j + 1, n);
      }
    } else {
      var n: nat :| Rooted(folders, folders[p].owner, p, n);
      ChainAvoiding(folders, owner, f, row, p, n);
      assert Rooted(after, owner, f, n + 1);
      RewriteKeepsForest(folders, f, row, n + 1);
    }
  }

  // ---------- The bounded walk decides it ----------

  lemma {:induction false} WalkFrom(folders: Folders, owner: Account, f: Id, x: Id, n: nat, i: nat)
    requires Rooted(folders, owner, x, n) && i <= MAX_WALK
    ensures Walk(folders, owner, f, Some(x), i) == None <==>
              i < MAX_WALK && Rooted(folders, owner, x, MAX_WALK - 1 - i) && !Reaches(folders, x, f)
    decreases n
  {
    if i < MAX_WALK {
      if x == f {
        assert Ancestor(folders, x, f, 0);
      } else if folders[x].parent.Some? {
        WalkFrom(folders, owner, f, folders[x].parent.value, n - 1, i + 1);
        ReachesStep(folders, x, f);
      } else {
        forall k: nat ensures !Ancestor(folders, x, f, k) { }
      }
    }
  }

  /** The walk allows a parent exactly when it is not below the folder and at most a hundred levels deep. */
  lemma WalkAllowsIff(folders: Folders, owner: Account, f: Id, p: Id)
    requires Forest(folders)
    ensures Walk(folders, owner, f, Some(p), 0) == None <==>
              Rooted(folders, owner, p, MAX_WALK - 1) && !Reaches(folders, p, f)
  {
    if Owned(folders, owner, p) {
      var n: nat :| Rooted(folders, folders[p].owner, p, n);
      WalkFrom(folders, owner, f, p, n, 0);
    }
  }

  // ---------- Every operation keeps the forest ----------

  lemma CreateKeeps(d: Drive, id: Id, owner: Account, name: string, parent: Option<Id>)
    requires Forest(d.folders) && Filing(d) && id !in d.folders && Created(d, id, owner, name, parent).Ok?
    ensures Forest(Created(d, id, owner, name, parent).value.folders)
    ensures Filing(Created(d, id, owner, name, parent).value)
  {
    var row := Folder(owner, name, parent);
    var m := 0;
    forall x | x in d.folders ensures d.folders[x].parent != Some(id) {
      if d.folders[x].parent == Some(id) {
        assert Ancestor(d.folders, id, id, 0);
        assert Ancestor(d.folders, x, id, 1);
        ForestHasNoCycle(d.folders, x, id, 1);
      }
    }
    if parent.Some? {
      var p := parent.value;
      var n: nat :| Rooted(d.folders, d.folders[p].owner, p, n);
      if k: nat :| Ancestor(d.folders, p, id, k) { ForestHasNoCycle(d.folders, p, id, k); }
      ChainAvoiding(d.folders, owner, id, row, p, n);
      m := n + 1;
    }
    RewriteKeepsForest(d.folders, id, row, m);
  }

  lemma UpdateKeeps(d: Drive, owner: Account, id: Id, name: Option<string>, patch: ParentPatch)
    requires Forest(d.folders) && Filing(d) && Updated(d, owner, id, name, patch).Ok?
    ensures Forest(Updated(d, owner, id, name, patch).value.folders) && Filing(Updated(d, owner, id, name, patch).value)
  {
    var row := Patched(d.folders[id], name, patch);
    if patch.Under? {
      WalkAllowsIff(d.folders, owner, id, patch.parent);
      LinkKeepsForestIff(d.folders, id, patch.parent, row);
    } else if patch.Keep? && d.folders[id].parent.Some? {
      var p := d.folders[id].parent.value;
      if k: nat :| Ancestor(d.folders, p, id, k) {
        assert Ancestor(d.folders, id, id, k + 1);
        ForestHasNoCycle(d.folders, id, id, k + 1);
      }
      assert Ancestor(d.folders, p, p, 0) && Ancestor(d.folders, id, p, 1);
      ForestHasNoCycle(d.folders, id, p, 1);
      LinkKeepsForestIff(d.folders, id, p, row);
    } else {
      assert Rooted(d.folders[id := row], owner, id, 0);
      RewriteKeepsForest(d.folders, id, row, 0);
    }
  }

  lemma {:induction false} ChainAfterRemoval(folders: Folders, owner: Account, id: Id, x: Id, n: nat)
    requires Rooted(folders, owner, x, n) && x != id
    ensures Rooted(RemoveFolder(folders, id), owner, x, n)
    decreases n
  {
    if folders[x].parent.Some? && folders[x].parent.value != id {
      ChainAfterRemoval(folders, owner, id, folders[x].parent.value, n - 1);
    }
  }

  /** Removing a row keeps the forest even if a child was added after the children were counted. */
  lemma RemovalKeepsForest(folders: Folders, id: Id)
    requires Forest(folders)
    ensures Forest(RemoveFolder(folders, id))
  {
    var after := RemoveFolder(folders, id);
    forall x | x in after ensures exists n: nat :: Rooted(after, after[x].owner, x, n) {
      var n: nat :| Rooted(folders, folders[x].owner, x, n);
      ChainAfterRemoval(folders, folders[x].owner, id, x, n);
    }
  }

  // ---------- When an operation succeeds, and what it then does ----------

  /** A folder of this owner under this parent has the name already; folders without a parent never collide. */
  predicate SiblingHas(folders: Folders, owner: Account, parent: Option<Id>, name: string, except: Option<Id>) {
    parent.Some? && exists x :: x in folders && Some(x) != except && folders[x].owner == owner
                                && folders[x].parent == parent && folders[x].name == name
  }

  lemma TakenIff(folders: Folders, except: Option<Id>, f: Folder)
    ensures Taken(folders, except, f) <==> SiblingHas(folders, f.owner, f.parent, f.name, except)
  {
    if x :| x in folders && Some(x) != except && folders[x].owner == f.owner && folders[x].parent == f.parent
            && folders[x].name == f.name {
      assert folders[x] == f;
    }
  }

  /** A folder is created exactly under an own parent, or none, and with a name no sibling has; nothing else changes. */
  lemma CreatedIff(d: Drive, id: Id, owner: Account, name: string, parent: Option<Id>)
    requires id !in d.folders
    ensures var result := Created(d, id, owner, name, parent);
            var found := parent.Some? ==> parent.value in d.folders && d.folders[parent.value].owner == owner;
            && (result.Ok? <==> found && !SiblingHas(d.folders, owner, parent, name, None))
            && (result.Ok? ==> result.value == Drive(d.folders[id := Folder(owner, name, parent)], d.files))
            && (result.Err? ==> result.error == if found then NameTaken else NotFound)
  {
    TakenIff(d.folders, None, Folder(owner, name, parent));
  }

  /** `y` is `x` or fewer than `n` levels above it. */
  predicate ReachesWithin(folders: Folders, x: Id, y: Id, n: nat) {
    exists k: nat :: k < n && Ancestor(folders, x, y, k)
  }

  /** Why a new parent is refused: the folder is met in a hundred steps, the parent is not the owner's, or too deep. */
  function ParentRefusal(folders: Folders, owner: Account, folder: Id, x: Id, n: nat): Option<Refusal> {
    if n == 0 then Some(TooDeep)
    else if ReachesWithin(folders, x, folder, n) then Some(Cycle)
    else if !(x in folders && folders[x].owner == owner) then Some(NotFound)
    else if !Rooted(folders, owner, x, n - 1) then Some(TooDeep)
    else None
  }

  lemma {:induction false} WalkRefuses(folders: Folders, owner: Account, folder: Id, x: Id, i: nat)
    requires Forest(folders) && Owned(folders, owner, folder) && i <= 100
    ensures Walk(folders, owner, folder, Some(x), i) == ParentRefusal(folders, owner, folder, x, 100 - i)
    decreases 100 - i
  {
    if i < 100 {
      assert x == folder ==> Ancestor(folders, x, folder, 0);
      if x != folder && Owned(folders, owner, x) && folders[x].parent.Some? {
        var parent := folders[x].parent.value;
        ParentIsOwn(folders, x);
        WalkRefuses(folders, owner, folder, parent, i + 1);
        ReachesLater(folders, x, folder, 100 - i);
      } else if x in folders && !Owned(folders, owner, x) {
        forall k: nat ensures !Ancestor(folders, x, folder, k) {
          if Ancestor(folders, x, folder, k) { ForestHasNoCycle(folders, x, folder, k); }
        }
      }
    }
  }

  lemma ReachesLater(folders: Folders, x: Id, y: Id, n: nat)
    requires x in folders && folders[x].parent.Some? && x != y && n > 0
    ensures ReachesWithin(folders, x, y, n) <==> ReachesWithin(folders, folders[x].parent.value, y, n - 1)
  {
    var parent := folders[x].parent.value;
    if k: nat :| k < n - 1 && Ancestor(folders, parent, y, k) { assert Ancestor(folders, x, y, k + 1); }
    if k: nat :| k < n && Ancestor(folders, x, y, k) { assert Ancestor(folders, parent, y, k - 1); }
  }

  /**
   * A folder is renamed and moved exactly if it is the owner's, the new parent, if one is given, is another folder that
   * is not below it and at most a hundred levels deep, and no sibling has the name; every other folder stays as it is.
   */
  lemma UpdatedIff(d: Drive, owner: Account, id: Id, name: Option<string>, patch: ParentPatch)
    requires Forest(d.folders)
    ensures var result := Updated(d, owner, id, name, patch);
            if !(id in d.folders && d.folders[id].owner == owner) then result == Err(NotFound)
            else
              var row := d.folders[id];
              var newName := if name.Some? then name.value else row.name;
              var newParent := if patch == Keep then row.parent
                               else if patch == ToRoot then None
                               else Some(patch.parent);
              && (result.Ok? <==>
                    && (patch.Under? ==> patch.parent != id && Rooted(d.folders, owner, patch.parent, 99)
                                         && !Reaches(d.folders, patch.parent, id))
                    && !SiblingHas(d.folders, owner, newParent, newName, Some(id)))
              && (result.Ok? ==> result.value == Drive(d.folders[id := Folder(owner, newName, newParent)], d.files))
              && (result.Err? ==>
                    var refusal := if patch.Under? then ParentRefusal(d.folders, owner, id, patch.parent, 100)
                                   else None;
                    result.error == if patch == Under(id) then OwnParent else refusal.GetOr(NameTaken))
  {
    if Owned(d.folders, owner, id) {
      TakenIff(d.folders, Some(id), Patched(d.folders[id], name, patch));
      if patch.Under? { WalkRefuses(d.folders, owner, id, patch.parent, 0); }
      if patch.Under? { WalkAllowsIff(d.folders, owner, id, patch.parent); }
    }
  }

  /** A folder without children is removed; its files are unfiled, and in a forest no other folder changes. */
  lemma DeletedIff(d: Drive, owner: Account, id: Id)
    requires Forest(d.folders)
    ensures var result := Deleted(d, owner, id);
            var children := exists x ::
                              x in d.folders && d.folders[x].owner == owner && d.folders[x].parent == Some(id);
            && (result.Ok? <==> id in d.folders && d.folders[id].owner == owner && !children)
            && (result.Ok? ==>
                  && result.value.folders == d.folders - {id} && result.value.files.Keys == d.files.Keys
                  && forall x :: x in d.files ==>
                       var f := d.files[x];
                       result.value.files[x]
                       == if f.owner == owner && f.folder == Some(id) then f.(folder := None) else f)
            && (result.Err? ==>
                  result.error == if id in d.folders && d.folders[id].owner == owner then HasChildren else NotFound)
  {
    if Deleted(d, owner, id).Ok? {
      forall x | x in d.folders ensures d.folders[x].parent != Some(id) {
        if d.folders[x].parent == Some(id) { ParentIsOwn(d.folders, x); }
      }
      assert RemoveFolder(d.folders, id) == d.folders - {id};
    }
  }

  lemma ParentIsOwn(folders: Folders, x: Id)
    requires Forest(folders) && x in folders && folders[x].parent.Some?
    ensures Owned(folders, folders[x].owner, folders[x].parent.value)
  {
    assert Ancestor(folders, folders[x].parent.value, folders[x].parent.value, 0);
    assert Ancestor(folders, x, folders[x].parent.value, 1);
    ForestHasNoCycle(folders, x, folders[x].parent.value, 1);
  }

  /** A file is filed exactly by its owner, in an own folder or in none. */
  lemma FiledIff(d: Drive, owner: Account, file: Id, folder: Option<Id>)
    ensures var result := Filed(d, owner, file, folder);
            && (result.Ok? <==>
                  && file in d.files && d.files[file].owner == owner
                  && (folder.Some? ==> folder.value in d.folders && d.folders[folder.value].owner == owner))
            && (result.Ok? ==> result.value == Drive(d.folders, d.files[file := File(owner, folder)]))
            && (result.Err? ==> result.error == NotFound)
  {
  }

  /** No two folders with a parent agree in owner, parent and name. */
  ghost predicate NamesDiffer(folders: Folders) {
    forall x, y :: x in folders && y in folders && x != y && folders[x].parent.Some? ==> folders[x] != folders[y]
  }

  lemma OpKeepsNames(d: Drive, op: Op)
    requires NamesDiffer(d.folders) && Outcome(d, op).Ok?
    ensures NamesDiffer(Outcome(d, op).value.folders)
  {
  }

  /** Siblings keep different names through any sequence of operations. */
  lemma {:induction false} AnySequenceKeepsNames(d: Drive, ops: seq<Op>)
    requires NamesDiffer(d.folders)
    ensures NamesDiffer(After(d, ops).folders)
    decreases |ops|
  {
    if ops != [] {
      if Outcome(d, ops[0]).Ok? {
        OpKeepsNames(d, ops[0]);
        AnySequenceKeepsNames(Outcome(d, ops[0]).value, ops[1..]);
      } else {
        AnySequenceKeepsNames(d, ops[1..]);
      }
    }
  }

  // ---------- Sequences of operations ----------

  datatype Op =
    | Create(id: Id, owner: Account, name: string, parent: Option<Id>)
    | Update(owner: Account, id: Id, newName: Option<string>, patch: ParentPatch)
    | Delete(owner: Account, id: Id)
    | Refile(owner: Account, file: Id, folder: Option<Id>)

  /** A refused operation changes nothing; new rows get fresh identifiers. */
  function Outcome(d: Drive, op: Op): Result<Drive, Refusal> {
    match op
    case Create(id, owner, name, parent) =>
      if id in d.folders then Err(NotFound) else Created(d, id, owner, name, parent)
    case Update(owner, id, name, patch) => Updated(d, owner, id, name, patch)
    case Delete(owner, id) => Deleted(d, owner, id)
    case Refile(owner, file, folder) => Filed(d, owner, file, folder)
  }

  function After(d: Drive, ops: seq<Op>): Drive
    decreases |ops|
  {
    if ops == [] then d
    else After(match Outcome(d, ops[0]) case Ok(e) => e case Err(_) => d, ops[1..])
  }

  lemma OpKeeps(d: Drive, op: Op)
    requires Forest(d.folders) && Filing(d) && Outcome(d, op).Ok?
    ensures Forest(Outcome(d, op).value.folders) && Filing(Outcome(d, op).value)
  {
    match op
    case Create(id, owner, name, parent) => CreateKeeps(d, id, owner, name, parent);
    case Update(owner, id, name, patch) => UpdateKeeps(d, owner, id, name, patch);
    case Delete(owner, id) => RemovalKeepsForest(d.folders, id);
    case Refile(owner, file, folder) =>
  }

  /** Any sequence of operations keeps every user's folders a forest and every file in a folder of its owner. */
  lemma {:induction false} AnySequenceKeepsForest(d: Drive, ops: seq<Op>)
    requires Forest(d.folders) && Filing(d)
    ensures Forest(After(d, ops).folders) && Filing(After(d, ops))
    decreases |ops|
  {
    if ops != [] {
      if Outcome(d, ops[0]).Ok? { OpKeeps(d, ops[0]); }
      AnySequenceKeepsForest(match Outcome(d, ops[0]) case Ok(e) => e case Err(_) => d, ops[1..]);
    }
  }

  /** The walk and the write are two database calls: two re-parentings checked before either writes can form a cycle. */
  lemma InterleavedReparentsCanCycle(owner: Account)
    ensures var a, b := Folder(owner, "a", None), Folder(owner, "b", None);
            var folders := map["a" := a, "b" := b];
            && Forest(folders)
            && Walk(folders, owner, "a", Some("b"), 0) == None && Walk(folders, owner, "b", Some("a"), 0) == None
            && !Forest(folders["a" := a.(parent := Some("b"))]["b" := b.(parent := Some("a"))])
  {
    var a, b := Folder(owner, "a", None), Folder(owner, "b", None);
    var folders := map["a" := a, "b" := b];
    assert "a" != "b" by { assert "a"[0] != "b"[0]; }
    assert Rooted(folders, owner, "a", 0) && Rooted(folders, owner, "b", 0);
    var after := folders["a" := a.(parent := Some("b"))]["b" := b.(parent := Some("a"))];
    assert Ancestor(after, "a", "a", 0) && Ancestor(after, "b", "a", 1) && Ancestor(after, "a", "a", 2);
    if Forest(after) {
      var n: nat :| Rooted(after, after["a"].owner, "a", n);
      CycleIsRootless(after, owner, "a", 2, n);
    }
  }

  // ---------- The service ----------

  class FolderService {
    var folders: map<Id, Folder>
    var files: map<Id, File>

    constructor ()
      ensures Contents() == Drive(map[], map[])
    {
      folders, files := map[], map[];
    }

    function Contents(): Drive
      reads this
    {
      Drive(folders, files)
    }

    ghost predicate Valid()
      reads this
    {
      Forest(folders) && Filing(Contents())
    }

    method AssertParentAllowed(owner: Account, folder: Id, parent: Id) returns (refusal: Option<Refusal>)
      ensures refusal == Walk(folders, owner, folder, Some(parent), 0)
    {
      var current := Some(parent);
      var i := 0;
      while i < MAX_WALK && current.Some?
        invariant i <= MAX_WALK
        invariant Walk(folders, owner, folder, Some(parent), 0) == Walk(folders, owner, folder, current, i)
      {
        if current.value == folder { return Some(Cycle); }
        if !Owned(folders, owner, current.value) { return Some(NotFound); }
        current := folders[current.value].parent;
        i := i + 1;
      }
      return if current.Some? then Some(TooDeep) else None;
    }

    method CreateFolder(id: Id, owner: Account, name: string, parent: Option<Id>) returns (refusal: Option<Refusal>)
      requires Valid() && id !in folders
      modifies this
      ensures Valid()
      ensures match old(Created(Contents(), id, owner, name, parent))
              case Ok(d) => refusal == None && Contents() == d
              case Err(e) => refusal == Some(e) && Contents() == old(Contents())
    {
      if parent.Some? && !Owned(folders, owner, parent.value) { return Some(NotFound); }
      var row := Folder(owner, name, parent);
      if Taken(folders, None, row) { return Some(NameTaken); }
      CreateKeeps(Contents(), id, owner, name, parent);
      folders := folders[id := row];
      return None;
    }

    method UpdateFolder(owner: Account, id: Id, name: Option<string>, patch: ParentPatch)
        returns (refusal: Option<Refusal>)
      requires Valid()
      modifies this
      ensures Valid()
      ensures match old(Updated(Contents(), owner, id, name, patch))
              case Ok(d) => refusal == None && Contents() == d
              case Err(e) => refusal == Some(e) && Contents() == old(Contents())
    {
      if !Owned(folders, owner, id) { return Some(NotFound); }
      if patch == Under(id) { return Some(OwnParent); }
      if patch.Under? {
        refusal := AssertParentAllowed(owner, id, patch.parent);
        if refusal.Some? { return; }
      }
      var row := Patched(folders[id], name, patch);
      if Taken(folders, Some(id), row) { return Some(NameTaken); }
      UpdateKeeps(Contents(), owner, id, name, patch);
      folders := folders[id := row];
      return None;
    }

    method DeleteFolder(owner: Account, id: Id) returns (refusal: Option<Refusal>)
      requires Valid()
      modifies this
      ensures Valid()
      ensures match old(Deleted(Contents(), owner, id))
              case Ok(d) => refusal == None && Contents() == d
              case Err(e) => refusal == Some(e) && Contents() == old(Contents())
    {
      if !Owned(folders, owner, id) { return Some(NotFound); }
      if HasChild(folders, owner, id) { return Some(HasChildren); }
      OpKeeps(Contents(), Delete(owner, id));
      files := ReleaseFiles(files, owner, id);
      folders := RemoveFolder(folders, id);
      return None;
    }
  }
}
