/** `commitFilesWithDeletes` of internal/gitlab/client.go: compare with the branch, commit the differences, read every
    change back. */
module ReconcilingCommit {
  import opened Options
  import opened Documents

  /** The files of a branch. */
  type Tree = map<string, string>

  datatype File = File(path: string, content: string)

  datatype Action = Create(path: string, content: string) | Update(path: string, content: string) | Delete(path: string)

  function At(tree: Tree, path: string): Option<string> {
    if path in tree then Some(tree[path]) else None
  }

  // ---------------------------------------------------------------- the plan

  function Written(files: seq<File>): set<string> {
    set f | f in files :: f.path
  }

  /** No path is listed with two contents. */
  predicate Consistent(files: seq<File>) {
    forall f, g | f in files && g in files && f.path == g.path :: f.content == g.content
  }

  predicate DistinctPaths(files: seq<File>) {
    forall i, j | 0 <= i < j < |files| :: files[i].path != files[j].path
  }

  predicate AllListed(tree: Tree, files: seq<File>) {
    forall f | f in files :: At(tree, f.path) == Some(f.content)
  }

  function FileActions(tree: Tree, files: seq<File>): seq<Action> {
    if files == [] then []
    else
      var before, f := FileActions(tree, files[..|files| - 1]), files[|files| - 1];
      if At(tree, f.path) == Some(f.content) then before
      else before + [if f.path in tree then Update(f.path, f.content) else Create(f.path, f.content)]
  }

  /** A listed path is never deleted, an empty one is no path. */
  predicate IsDoomed(path: string, written: set<string>) {
    Trim(path) != "" && Trim(path) !in written
  }

  function DeleteActions(tree: Tree, written: set<string>, paths: seq<string>): seq<Action> {
    if paths == [] then []
    else
      var before, path := DeleteActions(tree, written, paths[..|paths| - 1]), paths[|paths| - 1];
      if IsDoomed(path, written) && Trim(path) in tree then before + [Delete(Trim(path))] else before
  }

  function Plan(tree: Tree, files: seq<File>, deletes: seq<string>): seq<Action> {
    FileActions(tree, files) + DeleteActions(tree, Written(files), deletes)
  }

  /** The paths that are to go. */
  function Doomed(files: seq<File>, deletes: seq<string>): set<string> {
    set path | path in deletes && IsDoomed(path, Written(files)) :: Trim(path)
  }

  /** A path is to go if it is named, blanks aside, and not listed as a file. */
  lemma DoomedMeans(files: seq<File>, deletes: seq<string>, path: string)
    ensures path in Written(files) <==> exists f :: f in files && f.path == path
    ensures path in Doomed(files, deletes) <==>
      path != "" && (exists named :: named in deletes && Trim(named) == path) && !exists f :: f in files && f.path == path
  {
    if path != "" && path !in Written(files) {
      if named :| named in deletes && Trim(named) == path {
        assert IsDoomed(named, Written(files));
      }
    }
  }

  // ---------------------------------------------------------------- GitLab

  /** One action; GitLab refuses to create what exists and to change what does not. */
  function Act(tree: Tree, action: Action): Option<Tree> {
    match action
    case Create(path, content) => if path in tree then None else Some(tree[path := content])
    case Update(path, content) => if path in tree then Some(tree[path := content]) else None
    case Delete(path) => if path in tree then Some(tree - {path}) else None
  }

  /** A commit: all of its actions, or none. */
  function Commit(tree: Tree, actions: seq<Action>): Option<Tree> {
    if actions == [] then Some(tree)
    else
      var before := Commit(tree, actions[..|actions| - 1]);
      if before.None? then None else Act(before.value, actions[|actions| - 1])
  }

  lemma {:induction false} CommitInTwo(tree: Tree, a: seq<Action>, b: seq<Action>)
    ensures Commit(tree, a + b) == if Commit(tree, a).None? then None else Commit(Commit(tree, a).value, b)
  {
    if b == [] {
      assert a + b == a;
    } else {
      assert (a + b)[..|a + b| - 1] == a + b[..|b| - 1];
      CommitInTwo(tree, a, b[..|b| - 1]);
    }
  }

  // ---------------------------------------------------------------- what a commit of the plan does

  /** The branch as it should be: listed files with their content, doomed paths gone, the rest as it was. */
  ghost predicate IsReconciled(before: Tree, after: Tree, files: seq<File>, deletes: seq<string>) {
    && AllListed(after, files)
    && (forall path | path in Doomed(files, deletes) :: path !in after)
    && forall path :: path !in Written(files) && path !in Doomed(files, deletes) ==> At(after, path) == At(before, path)
  }

  /** There is only one such branch. */
  lemma ReconciledIsUnique(before: Tree, a: Tree, b: Tree, files: seq<File>, deletes: seq<string>)
    requires IsReconciled(before, a, files, deletes) && IsReconciled(before, b, files, deletes)
    ensures a == b
  {
    forall path ensures At(a, path) == At(b, path) {
      if path in Written(files) {
        var f :| f in files && f.path == path;
      }
    }
    forall path | path in a ensures path in b && a[path] == b[path] {
      assert At(a, path) == At(b, path);
    }
    forall path | path in b ensures path in a {
      assert At(a, path) == At(b, path);
    }
  }

  lemma {:induction false} FilesAreWritten(tree: Tree, after: Tree, files: seq<File>)
    requires Consistent(files) && Commit(tree, FileActions(tree, files)) == Some(after)
    ensures AllListed(after, files)
    ensures forall path :: path !in Written(files) ==> At(after, path) == At(tree, path)
  {
    if files != [] {
      var front, f := files[..|files| - 1], files[|files| - 1];
      var actions, kept := FileActions(tree, files), FileActions(tree, front);
      assert actions != kept ==> actions[..|actions| - 1] == kept;
      var middle := Commit(tree, kept).value;
      FilesAreWritten(tree, middle, front);
    }
  }

  lemma {:induction false} PathsAreDeleted(tree: Tree, middle: Tree, after: Tree, written: set<string>, paths: seq<string>)
    requires forall path :: path !in written ==> At(middle, path) == At(tree, path)
    requires Commit(middle, DeleteActions(tree, written, paths)) == Some(after)
    ensures forall path | path in paths && IsDoomed(path, written) :: Trim(path) !in after
    ensures forall path :: (path in written || path !in DoomedBy(paths, written)) ==> At(after, path) == At(middle, path)
    ensures forall path :: path in after ==> path in middle
    decreases |paths|
  {
    if paths != [] {
      var front, path := paths[..|paths| - 1], paths[|paths| - 1];
      var actions, kept := DeleteActions(tree, written, paths), DeleteActions(tree, written, front);
      assert forall p | p in front :: p in paths;
      assert forall p | p in paths :: p in front || p == path;
      if IsDoomed(path, written) && Trim(path) in tree {
        assert actions[..|actions| - 1] == kept;
        PathsAreDeleted(tree, middle, Commit(middle, kept).value, written, front);
      } else {
        PathsAreDeleted(tree, middle, after, written, front);
        if IsDoomed(path, written) {
          assert At(middle, Trim(path)) == At(tree, Trim(path)) == None;
        }
      }
    }
  }

  function DoomedBy(paths: seq<string>, written: set<string>): set<string> {
    set path | path in paths && IsDoomed(path, written) :: Trim(path)
  }

  /** A commit of the plan reconciles the branch, provided no path is listed with two contents. */
  lemma PlanReconciles(tree: Tree, after: Tree, files: seq<File>, deletes: seq<string>)
    requires Consistent(files) && Commit(tree, Plan(tree, files, deletes)) == Some(after)
    ensures IsReconciled(tree, after, files, deletes)
  {
    var writes, removals := FileActions(tree, files), DeleteActions(tree, Written(files), deletes);
    CommitInTwo(tree, writes, removals);
    var middle := Commit(tree, writes).value;
    FilesAreWritten(tree, middle, files);
    PathsAreDeleted(tree, middle, after, Written(files), deletes);
    assert DoomedBy(deletes, Written(files)) == Doomed(files, deletes);
    forall f | f in files ensures At(after, f.path) == Some(f.content) {
      assert f.path in Written(files);
    }
    forall path | path in Doomed(files, deletes) ensures path !in after {
      var p :| p in deletes && IsDoomed(p, Written(files)) && Trim(p) == path;
    }
  }

  lemma {:induction false} WriteComesFromFile(tree: Tree, files: seq<File>, a: Action)
    requires a in FileActions(tree, files)
    ensures !a.Delete? && File(a.path, a.content) in files
  {
    var front := files[..|files| - 1];
    if a in FileActions(tree, front) {
      WriteComesFromFile(tree, front, a);
    }
  }

  lemma {:induction false} RemovalComesFromPath(tree: Tree, written: set<string>, paths: seq<string>, a: Action)
    requires a in DeleteActions(tree, written, paths)
    ensures a.Delete? && a.path in DoomedBy(paths, written)
    decreases |paths|
  {
    var front := paths[..|paths| - 1];
    if a in DeleteActions(tree, written, front) {
      RemovalComesFromPath(tree, written, front, a);
    }
  }

  /** A reconciled branch shows every planned action. */
  lemma ReconciledShows(tree: Tree, after: Tree, files: seq<File>, deletes: seq<string>)
    requires IsReconciled(tree, after, files, deletes)
    ensures forall a | a in Plan(tree, files, deletes) :: Shows(after, a)
  {
    forall a | a in Plan(tree, files, deletes) ensures Shows(after, a) {
      if a in FileActions(tree, files) {
        WriteComesFromFile(tree, files, a);
        assert At(after, File(a.path, a.content).path) == Some(a.content);
      } else {
        RemovalComesFromPath(tree, Written(files), deletes, a);
        assert DoomedBy(deletes, Written(files)) == Doomed(files, deletes);
      }
    }
  }

  // ---------------------------------------------------------------- when there is nothing to do

  lemma {:induction false} NoFileActions(tree: Tree, files: seq<File>)
    ensures FileActions(tree, files) == [] <==> AllListed(tree, files)
  {
    if files != [] {
      var front, f := files[..|files| - 1], files[|files| - 1];
      assert files == front + [f];
      NoFileActions(tree, front);
      assert AllListed(tree, files) <==> AllListed(tree, front) && At(tree, f.path) == Some(f.content) by {
        assert f in files && forall g | g in files :: g in front || g == f;
      }
    }
  }

  lemma {:induction false} NoDeleteActions(tree: Tree, written: set<string>, paths: seq<string>)
    ensures DeleteActions(tree, written, paths) == [] <==> forall path | path in paths && IsDoomed(path, written) :: Trim(path) !in tree
  {
    if paths != [] {
      var front, path := paths[..|paths| - 1], paths[|paths| - 1];
      assert paths == front + [path];
      NoDeleteActions(tree, written, front);
      assert forall p | p in paths :: p in front || p == path;
      assert path in paths && forall p | p in front :: p in paths;
    }
  }

  /** A second run plans nothing exactly when the first left every listed file and no doomed path. */
  lemma NothingLeftToDo(tree: Tree, files: seq<File>, deletes: seq<string>)
    ensures Plan(tree, files, deletes) == [] <==>
      AllListed(tree, files) && forall path | path in Doomed(files, deletes) :: path !in tree
  {
    NoFileActions(tree, files);
    NoDeleteActions(tree, Written(files), deletes);
    if forall path | path in deletes && IsDoomed(path, Written(files)) :: Trim(path) !in tree {
      forall path | path in Doomed(files, deletes) ensures path !in tree {
        var p :| p in deletes && IsDoomed(p, Written(files)) && Trim(p) == path;
      }
    }
  }

  /** Running again after a successful run makes no commit. */
  lemma RerunMakesNoCommit(before: Tree, after: Tree, files: seq<File>, deletes: seq<string>)
    requires IsReconciled(before, after, files, deletes)
    ensures Plan(after, files, deletes) == []
  {
    NothingLeftToDo(after, files, deletes);
  }

  /** Such a list can be reported as a success all the same: the first content equals the old one and is skipped. */
  lemma TwoContentsCanSucceed(tree: Tree, path: string, other: string)
    requires path in tree && tree[path] != other
    ensures var files := [File(path, tree[path]), File(path, other)];
      Commit(tree, Plan(tree, files, [])) == Some(tree[path := other]) && !AllListed(tree[path := other], files)
  {
    var first, second := File(path, tree[path]), File(path, other);
    var files := [first, second];
    assert files[..1] == [first] && [first][..0] == [];
    assert FileActions(tree, [first]) == [];
    assert FileActions(tree, files) == [Update(path, other)];
    assert Plan(tree, files, []) == [Update(path, other)];
    assert [Update(path, other)][..0] == [];
    assert first in files;
  }

  // ---------------------------------------------------------------- distinct paths are accepted

  lemma {:induction false} WritesAreAccepted(tree: Tree, files: seq<File>)
    requires DistinctPaths(files)
    ensures Commit(tree, FileActions(tree, files)).Some?
  {
    if files != [] {
      var front, f := files[..|files| - 1], files[|files| - 1];
      WritesAreAccepted(tree, front);
      var actions, kept := FileActions(tree, files), FileActions(tree, front);
      if actions != kept {
        assert actions[..|actions| - 1] == kept;
        forall a, b | a in front && b in front && a.path == b.path ensures a.content == b.content {
          var i :| 0 <= i < |front| && front[i] == a;
          var j :| 0 <= j < |front| && front[j] == b;
          assert files[i] == a && files[j] == b;
        }
        FilesAreWritten(tree, Commit(tree, kept).value, front);
        assert f.path !in Written(front);
      }
    }
  }

  lemma {:induction false} RemovalsAreAccepted(tree: Tree, middle: Tree, written: set<string>, paths: seq<string>)
    requires forall path :: path !in written ==> At(middle, path) == At(tree, path)
    requires forall i, j | 0 <= i < j < |paths| :: Trim(paths[i]) != Trim(paths[j])
    ensures Commit(middle, DeleteActions(tree, written, paths)).Some?
  {
    if paths != [] {
      var front, path := paths[..|paths| - 1], paths[|paths| - 1];
      RemovalsAreAccepted(tree, middle, written, front);
      var actions, kept := DeleteActions(tree, written, paths), DeleteActions(tree, written, front);
      if actions != kept {
        assert actions[..|actions| - 1] == kept;
        var after := Commit(middle, kept).value;
        PathsAreDeleted(tree, middle, after, written, front);
        assert Trim(path) !in DoomedBy(front, written);
        assert At(after, Trim(path)) == At(middle, Trim(path)) == At(tree, Trim(path));
      }
    }
  }

  /** GitLab accepts the plan for distinct paths. */
  lemma DistinctPathsAreAccepted(tree: Tree, files: seq<File>, deletes: seq<string>)
    requires DistinctPaths(files)
    requires forall i, j | 0 <= i < j < |deletes| :: Trim(deletes[i]) != Trim(deletes[j])
    ensures Commit(tree, Plan(tree, files, deletes)).Some?
  {
    var writes, removals := FileActions(tree, files), DeleteActions(tree, Written(files), deletes);
    CommitInTwo(tree, writes, removals);
    WritesAreAccepted(tree, files);
    FilesAreWritten(tree, Commit(tree, writes).value, files);
    RemovalsAreAccepted(tree, Commit(tree, writes).value, Written(files), deletes);
  }

  // ---------------------------------------------------------------- counts

  function New(tree: Tree, files: seq<File>): set<string> {
    set f | f in files && f.path !in tree :: f.path
  }

  function Changed(tree: Tree, files: seq<File>): set<string> {
    set f | f in files && f.path in tree && tree[f.path] != f.content :: f.path
  }

  /** Files are new if their path is not there, and changed if another content is. */
  lemma CountsMean(tree: Tree, files: seq<File>, path: string)
    ensures path in New(tree, files) <==> path !in tree && exists f :: f in files && f.path == path
    ensures path in Changed(tree, files) <==> path in tree && exists f :: f in files && f.path == path && f.content != tree[path]
  {
  }

  lemma AddNew(tree: Tree, files: seq<File>, f: File)
    requires f.path !in Written(files)
    ensures |New(tree, files + [f])| == |New(tree, files)| + if f.path in tree then 0 else 1
  {
    if f.path in tree {
      assert New(tree, files + [f]) == New(tree, files);
    } else {
      assert New(tree, files + [f]) == New(tree, files) + {f.path};
    }
  }

  lemma AddChanged(tree: Tree, files: seq<File>, f: File)
    requires f.path !in Written(files)
    ensures |Changed(tree, files + [f])| == |Changed(tree, files)| + if f.path in tree && tree[f.path] != f.content then 1 else 0
  {
    if f.path in tree && tree[f.path] != f.content {
      assert Changed(tree, files + [f]) == Changed(tree, files) + {f.path};
    } else {
      assert Changed(tree, files + [f]) == Changed(tree, files);
    }
  }

  /** One more file of a list of distinct paths. */
  lemma CountsNext(tree: Tree, files: seq<File>, i: nat)
    requires DistinctPaths(files) && i < |files|
    ensures |New(tree, files[..i + 1])| == |New(tree, files[..i])| + if files[i].path in tree then 0 else 1
    ensures |Changed(tree, files[..i + 1])| == |Changed(tree, files[..i])| +
      if files[i].path in tree && tree[files[i].path] != files[i].content then 1 else 0
  {
    assert files[..i + 1] == files[..i] + [files[i]];
    AddNew(tree, files[..i], files[i]);
    AddChanged(tree, files[..i], files[i]);
  }

  // ---------------------------------------------------------------- the client

  /** What the commit request ends with. `after` is the branch as GitLab leaves it, whatever it did. */
  datatype CommitAnswer = CommitLost(after: Tree) | CommitDone(after: Tree)

  /** GitLab does what its documentation says: all of the actions, or an error and nothing. */
  predicate Atomic(tree: Tree, actions: seq<Action>, answer: CommitAnswer) {
    match answer
    case CommitLost(after) => after == tree || Commit(tree, actions) == Some(after)
    case CommitDone(after) => Commit(tree, actions) == Some(after)
  }

  /** The branch shows what an action was to do. */
  predicate Shows(tree: Tree, action: Action) {
    match action
    case Create(path, content) => At(tree, path) == Some(content)
    case Update(path, content) => At(tree, path) == Some(content)
    case Delete(path) => path !in tree
  }

  class Branch {
    var tree: Tree
    var commits: nat

    constructor (tree: Tree)
      ensures this.tree == tree && commits == 0
    {
      this.tree, commits := tree, 0;
    }

    /** The actions for the listed files; nothing if a file cannot be read. */
    method PlanFiles(files: seq<File>, unreadable: set<string>)
      returns (actions: Option<seq<Action>>, created: nat, updated: nat)
      ensures actions.Some? ==> actions.value == FileActions(tree, files)
      ensures actions.Some? && DistinctPaths(files) ==> created == |New(tree, files)| && updated == |Changed(tree, files)|
      ensures actions.None? <==> exists f :: f in files && f.path in unreadable
    {
      var planned := [];
      created, updated := 0, 0;
      var i := 0;
      while i < |files|
        invariant 0 <= i <= |files|
        invariant planned == FileActions(tree, files[..i])
        invariant DistinctPaths(files) ==> created == |New(tree, files[..i])| && updated == |Changed(tree, files[..i])|
        invariant forall k | 0 <= k < i :: files[k].path !in unreadable
      {
        var file := files[i];
        assert files[..i + 1][..i] == files[..i];
        if DistinctPaths(files) {
          CountsNext(tree, files, i);
        }
        if file.path in unreadable {
          return None, 0, 0;
        }
        if At(tree, file.path) != Some(file.content) {
          if file.path in tree {
            planned, updated := planned + [Update(file.path, file.content)], updated + 1;
          } else {
            planned, created := planned + [Create(file.path, file.content)], created + 1;
          }
        }
        i := i + 1;
      }
      assert files[..i] == files;
      return Some(planned), created, updated;
    }

    /** The actions for the paths to delete. */
    method PlanDeletes(written: set<string>, paths: seq<string>, unreadable: set<string>) returns (actions: Option<seq<Action>>)
      ensures actions.Some? ==> actions.value == DeleteActions(tree, written, paths)
      ensures actions.None? <==> exists path :: path in paths && IsDoomed(path, written) && Trim(path) in unreadable
    {
      var planned := [];
      var i := 0;
      while i < |paths|
        invariant 0 <= i <= |paths|
        invariant planned == DeleteActions(tree, written, paths[..i])
        invariant forall k | 0 <= k < i :: !(IsDoomed(paths[k], written) && Trim(paths[k]) in unreadable)
      {
        assert paths[..i + 1][..i] == paths[..i];
        if IsDoomed(paths[i], written) {
          var path := Trim(paths[i]);
          if path in unreadable {
            return None;
          }
          if path in tree {
            planned := planned + [Delete(path)];
          }
        }
        i := i + 1;
      }
      assert paths[..i] == paths;
      return Some(planned);
    }

    /** Reading every change back. */
    method Verify(actions: seq<Action>, unreadable: set<string>) returns (ok: bool)
      ensures ok <==> forall a | a in actions :: a.path !in unreadable && Shows(tree, a)
    {
      var i := 0;
      while i < |actions|
        invariant 0 <= i <= |actions|
        invariant forall k | 0 <= k < i :: actions[k].path !in unreadable && Shows(tree, actions[k])
      {
        var action := actions[i];
        if action.path in unreadable {
          return false;
        }
        if action.Delete? {
          if action.path in tree {
            return false;
          }
        } else if At(tree, action.path) != Some(action.content) {
          return false;
        }
        i := i + 1;
      }
      return true;
    }

    /** Success is only reported for changes that were read back, whatever GitLab did; and if GitLab's commits are
        atomic, success means the branch is reconciled exactly when no path was listed with two contents. */
    method CommitFilesWithDeletes(files: seq<File>, deletes: seq<string>, unreadable: set<string>, answer: CommitAnswer,
                                  unverifiable: set<string>)
      returns (ok: bool, created: nat, updated: nat)
      modifies this
      ensures ok ==> forall a | a in Plan(old(tree), files, deletes) :: Shows(tree, a)
      ensures ok && Atomic(old(tree), Plan(old(tree), files, deletes), answer) ==>
        (IsReconciled(old(tree), tree, files, deletes) <==> Consistent(files))
      ensures ok && DistinctPaths(files) ==> created == |New(old(tree), files)| && updated == |Changed(old(tree), files)|
      ensures ok && Plan(old(tree), files, deletes) == [] ==> tree == old(tree) && commits == old(commits) && created == updated == 0
      ensures tree == old(tree) || tree == answer.after
      ensures unreadable == {} && unverifiable == {} && answer.CommitDone? ==>
        (forall a | a in Plan(old(tree), files, deletes) :: Shows(answer.after, a)) ==> ok
      ensures !ok && Atomic(old(tree), Plan(old(tree), files, deletes), answer) ==>
        tree == old(tree) || Commit(old(tree), Plan(old(tree), files, deletes)) == Some(tree)
      ensures ok <==>
        && (forall f | f in files :: f.path !in unreadable)
        && (forall path | path in deletes && IsDoomed(path, Written(files)) :: Trim(path) !in unreadable)
        && (Plan(old(tree), files, deletes) == [] ||
             (answer.CommitDone? && forall a | a in Plan(old(tree), files, deletes) :: a.path !in unverifiable && Shows(answer.after, a)))
      ensures commits == old(commits) || commits == old(commits) + 1
      ensures commits == old(commits) ==> tree == old(tree)
      ensures unreadable == {} && Plan(old(tree), files, deletes) != [] ==> commits == old(commits) + 1
    {
      ghost var before := tree;
      var writes;
      writes, created, updated := PlanFiles(files, unreadable);
      if writes.None? {
        return false, 0, 0;
      }
      var removals := PlanDeletes(Written(files), deletes, unreadable);
      if removals.None? {
        return false, 0, 0;
      }
      var actions := writes.value + removals.value;
      assert actions == Plan(before, files, deletes);
      ReconciledExactly(before, files, deletes);
      if actions == [] {
        assert DistinctPaths(files) ==> created == updated == 0 by {
          NothingIsNewOrChanged(before, files, deletes);
        }
        return true, 0, 0;
      }
      tree, commits := answer.after, commits + 1;
      if answer.CommitLost? {
        return false, created, updated;
      }
      ok := Verify(actions, unverifiable);
    }

    /** `commitFiles` against a GitLab whose commits are atomic. */
    method CommitFiles(files: seq<File>, accepted: bool) returns (ok: bool)
      requires Consistent(files)
      modifies this
      ensures ok ==> IsReconciled(old(tree), tree, files, [])
      ensures !ok ==> tree == old(tree)
      ensures ok <==> Plan(old(tree), files, []) == [] || (accepted && Commit(old(tree), Plan(old(tree), files, [])).Some?)
    {
      var planned := Commit(tree, Plan(tree, files, []));
      var answer := if accepted && planned.Some? then CommitDone(planned.value) else CommitLost(tree);
      if planned.Some? {
        ReconciledExactly(tree, files, []);
        ReconciledShows(tree, planned.value, files, []);
      }
      var created, updated;
      ok, created, updated := CommitFilesWithDeletes(files, [], {}, answer, {});
    }

    /** `Provision` commits long lists in batches of fifty; together they do what one commit would do. */
    method CommitInBatches(files: seq<File>, accepted: seq<bool>) returns (ok: bool)
      requires Consistent(files) && |accepted| * 50 >= |files|
      modifies this
      ensures ok ==> IsReconciled(old(tree), tree, files, [])
      ensures DistinctPaths(files) && (forall i | 0 <= i < |accepted| :: accepted[i]) ==> ok
    {
      var start, batch := 0, 0;
      while start < |files|
        invariant 0 <= start <= |files| && batch <= |accepted| && (start < |files| ==> start == batch * 50)
        invariant IsReconciled(old(tree), tree, files[..start], [])
      {
        var end := if start + 50 > |files| then |files| else start + 50;
        ghost var before := tree;
        BatchIsAccepted(tree, files, start, end);
        ok := CommitFiles(files[start..end], accepted[batch]);
        if !ok {
          return false;
        }
        BatchFollows(old(tree), before, tree, files, start, end);
        start, batch := end, batch + 1;
      }
      assert files[..start] == files;
      return true;
    }
  }

  /** GitLab accepts a batch of distinct paths. */
  lemma BatchIsAccepted(tree: Tree, files: seq<File>, i: nat, j: nat)
    requires i <= j <= |files|
    ensures DistinctPaths(files) ==> Commit(tree, Plan(tree, files[i..j], [])).Some?
  {
    if DistinctPaths(files) {
      var batch := files[i..j];
      forall k, l | 0 <= k < l < |batch| ensures batch[k].path != batch[l].path {
        assert batch[k] == files[i + k] && batch[l] == files[i + l];
      }
      DistinctPathsAreAccepted(tree, batch, []);
    }
  }

  /** A batch on top of the batches before it. */
  lemma BatchFollows(start: Tree, before: Tree, after: Tree, files: seq<File>, i: nat, j: nat)
    requires i <= j <= |files| && Consistent(files)
    requires IsReconciled(start, before, files[..i], []) && IsReconciled(before, after, files[i..j], [])
    ensures IsReconciled(start, after, files[..j], [])
  {
    assert files[..j] == files[..i] + files[i..j];
    assert Written(files[..j]) == Written(files[..i]) + Written(files[i..j]);
    forall f | f in files[..j] ensures At(after, f.path) == Some(f.content) {
      assert f in files && forall g | g in files[i..j] :: g in files;
    }
  }

  /** An atomic commit of the plan reconciles the branch exactly when no path is listed with two contents. */
  lemma ReconciledExactly(tree: Tree, files: seq<File>, deletes: seq<string>)
    ensures var after := Commit(tree, Plan(tree, files, deletes));
      after.Some? ==> (IsReconciled(tree, after.value, files, deletes) <==> Consistent(files))
  {
    var after := Commit(tree, Plan(tree, files, deletes));
    if after.Some? {
      if Consistent(files) {
        PlanReconciles(tree, after.value, files, deletes);
      } else if AllListed(after.value, files) {
      }
    }
  }

  lemma NothingIsNewOrChanged(tree: Tree, files: seq<File>, deletes: seq<string>)
    requires Plan(tree, files, deletes) == []
    ensures New(tree, files) == {} && Changed(tree, files) == {}
  {
    NothingLeftToDo(tree, files, deletes);
    forall f | f in files ensures f.path in tree && tree[f.path] == f.content {
      assert At(tree, f.path) == Some(f.content);
    }
  }
}
