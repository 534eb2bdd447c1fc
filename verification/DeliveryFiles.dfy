/** Where the file lists of a commit come from: `generateDeliveryFiles` of internal/gitlab/generator.go and
    `EnsureSourceRepository` of internal/gitlab/source_repository.go. Both list every path once. */
module DeliveryFiles {
  import opened Options
  import opened Documents
  import opened Texts
  import opened ReconcilingCommit

  // ---------------------------------------------------------------- delivery repositories

  /** What decides which files a service gets; `inRepository` services keep their manifest themselves. */
  datatype ServiceSpec = ServiceSpec(key: string, inRepository: bool, ownDockerfile: bool)

  datatype RepositoryKind = Delivery | Jenkinsfiles | Manifests

  datatype GeneratedFile = GeneratedFile(repository: RepositoryKind, path: string)

  const ENVIRONMENTS := ["dev", "test", "uat", "prod"]

  function ManifestPath(environment: string, key: string): string {
    "environments/" + environment + "/" + (key + "/manifest.yaml")
  }

  /** `managedDockerfilePath`, for names that are trimmed and in lower case already. */
  function DockerfilePath(environment: string, key: string): string {
    "environments/" + environment + "/" + ("dockerfiles/" + (key + "/Dockerfile"))
  }

  const MARKER := ".ops-deploy/managed.json"
  const README := "README.md"

  /** Where a generated file comes from. */
  datatype Origin =
    | MarkerOf(repository: RepositoryKind)
    | ReadmeOf(repository: RepositoryKind)
    | ManifestOf(environment: nat, service: nat)
    | DockerfileOf(environment: nat, service: nat)

  function FileOf(origin: Origin, services: seq<ServiceSpec>, unified: bool): GeneratedFile
    requires (origin.ManifestOf? || origin.DockerfileOf?) ==> origin.environment < |ENVIRONMENTS| && origin.service < |services|
  {
    match origin
    case MarkerOf(repository) => GeneratedFile(repository, MARKER)
    case ReadmeOf(repository) => GeneratedFile(repository, README)
    case ManifestOf(e, s) => GeneratedFile(if unified then Delivery else Manifests, ManifestPath(ENVIRONMENTS[e], services[s].key))
    case DockerfileOf(e, s) => GeneratedFile(if unified then Delivery else Jenkinsfiles, DockerfilePath(ENVIRONMENTS[e], services[s].key))
  }

  /** An origin among the first `e` environments, and the first `s` services of the next one. */
  predicate Before(origin: Origin, services: nat, e: nat, s: nat) {
    origin.ManifestOf? || origin.DockerfileOf? ==>
      origin.service < services && (origin.environment < e || (origin.environment == e && origin.service < s))
  }

  /** The files there are to be: marker and readme of each repository, and what a service does not keep itself. */
  predicate IsWanted(origin: Origin, services: seq<ServiceSpec>, unified: bool) {
    match origin
    case MarkerOf(repository) => if unified then repository == Delivery else repository == Jenkinsfiles || repository == Manifests
    case ReadmeOf(repository) => if unified then repository == Delivery else repository == Jenkinsfiles || repository == Manifests
    case ManifestOf(e, s) => e < 4 && s < |services| && !services[s].inRepository
    case DockerfileOf(e, s) => e < 4 && s < |services| && !services[s].ownDockerfile
  }

  /** Where they lie. */
  lemma PathsMean(origin: Origin, services: seq<ServiceSpec>, unified: bool)
    requires IsWanted(origin, services, unified)
    ensures match origin
      case MarkerOf(repository) => FileOf(origin, services, unified) == GeneratedFile(repository, ".ops-deploy/managed.json")
      case ReadmeOf(repository) => FileOf(origin, services, unified) == GeneratedFile(repository, "README.md")
      case ManifestOf(e, s) => FileOf(origin, services, unified) == GeneratedFile(if unified then Delivery else Manifests,
        "environments/" + ["dev", "test", "uat", "prod"][e] + "/" + services[s].key + "/manifest.yaml")
      case DockerfileOf(e, s) => FileOf(origin, services, unified) == GeneratedFile(if unified then Delivery else Jenkinsfiles,
        "environments/" + ["dev", "test", "uat", "prod"][e] + "/dockerfiles/" + services[s].key + "/Dockerfile")
  {
    match origin
    case MarkerOf(_) =>
    case ReadmeOf(_) =>
    case ManifestOf(e, s) =>
      var front := "environments/" + ENVIRONMENTS[e] + "/";
      assert front + (services[s].key + "/manifest.yaml") == front + services[s].key + "/manifest.yaml";
    case DockerfileOf(e, s) =>
      var front := "environments/" + ENVIRONMENTS[e];
      assert "/" + "dockerfiles/" == "/dockerfiles/";
      assert front + "/" + ("dockerfiles/" + (services[s].key + "/Dockerfile")) == front + ("/" + "dockerfiles/") + services[s].key + "/Dockerfile";
  }

  ghost predicate Traced(files: seq<GeneratedFile>, origins: seq<Origin>, services: seq<ServiceSpec>, unified: bool, e: nat, s: nat) {
    && |origins| == |files|
    && (forall i | 0 <= i < |files| ::
          && Before(origins[i], |services|, e, s)
          && ((origins[i].ManifestOf? || origins[i].DockerfileOf?) ==> origins[i].environment < |ENVIRONMENTS|)
          && IsWanted(origins[i], services, unified)
          && files[i] == FileOf(origins[i], services, unified))
    && (forall i, j | 0 <= i < j < |origins| :: origins[i] != origins[j])
  }

  predicate DistinctFiles(files: seq<GeneratedFile>) {
    forall i, j | 0 <= i < j < |files| :: files[i] != files[j]
  }

  predicate DistinctKeys(services: seq<ServiceSpec>) {
    && (forall s | s in services :: IsKey(s.key))
    && forall i, j | 0 <= i < j < |services| :: services[i].key != services[j].key
  }

  // ---------------------------------------------------------------- no two origins share a path

  predicate NoSlash(s: string) { forall i | 0 <= i < |s| :: s[i] != '/' }

  /** A text up to its first slash, and after it. */
  lemma SplitAtSlash(a: string, x: string, b: string, y: string)
    requires NoSlash(a) && NoSlash(b) && a + "/" + x == b + "/" + y
    ensures a == b && x == y
  {
    var left, right := a + "/" + x, b + "/" + y;
    assert left[|a|] == '/' && right[|b|] == '/';
    assert forall i | 0 <= i < |a| :: left[i] == a[i];
    assert forall i | 0 <= i < |b| :: right[i] == b[i];
    assert |a| == |b|;
    assert left[..|a|] == a && right[..|b|] == b;
    assert left[|a| + 1..] == x && right[|b| + 1..] == y;
  }

  lemma SamePrefix(prefix: string, x: string, y: string)
    requires prefix + x == prefix + y
    ensures x == y
  {
    assert (prefix + x)[|prefix|..] == x && (prefix + y)[|prefix|..] == y;
  }

  lemma EnvironmentOf(e: string, x: string, f: string, y: string)
    requires NoSlash(e) && NoSlash(f)
    requires "environments/" + e + "/" + x == "environments/" + f + "/" + y
    ensures e == f && x == y
  {
    assert "environments/" + e + "/" + x == "environments/" + (e + "/" + x);
    assert "environments/" + f + "/" + y == "environments/" + (f + "/" + y);
    SamePrefix("environments/", e + "/" + x, f + "/" + y);
    SplitAtSlash(e, x, f, y);
  }

  lemma ManifestPathsDiffer(e: string, k: string, f: string, l: string)
    requires NoSlash(e) && NoSlash(f) && NoSlash(k) && NoSlash(l) && ManifestPath(e, k) == ManifestPath(f, l)
    ensures e == f && k == l
  {
    EnvironmentOf(e, k + "/manifest.yaml", f, l + "/manifest.yaml");
    assert k + "/manifest.yaml" == k + "/" + "manifest.yaml" && l + "/manifest.yaml" == l + "/" + "manifest.yaml";
    SplitAtSlash(k, "manifest.yaml", l, "manifest.yaml");
  }

  lemma DockerfilePathsDiffer(e: string, k: string, f: string, l: string)
    requires NoSlash(e) && NoSlash(f) && NoSlash(k) && NoSlash(l) && DockerfilePath(e, k) == DockerfilePath(f, l)
    ensures e == f && k == l
  {
    EnvironmentOf(e, "dockerfiles/" + (k + "/Dockerfile"), f, "dockerfiles/" + (l + "/Dockerfile"));
    SamePrefix("dockerfiles/", k + "/Dockerfile", l + "/Dockerfile");
    assert k + "/Dockerfile" == k + "/" + "Dockerfile" && l + "/Dockerfile" == l + "/" + "Dockerfile";
    SplitAtSlash(k, "Dockerfile", l, "Dockerfile");
  }

  function Last(s: string): char
    requires s != ""
  {
    s[|s| - 1]
  }

  lemma EnvironmentsDiffer(i: nat, j: nat)
    requires i < |ENVIRONMENTS| && j < |ENVIRONMENTS|
    ensures NoSlash(ENVIRONMENTS[i])
    ensures ENVIRONMENTS[i] == ENVIRONMENTS[j] ==> i == j
  {
    assert ENVIRONMENTS[0][0] == 'd' && ENVIRONMENTS[1][0] == 't' && ENVIRONMENTS[2][0] == 'u' && ENVIRONMENTS[3][0] == 'p';
  }

  /** One file of a service, as far as its path goes. */
  predicate InServices(origin: Origin, services: seq<ServiceSpec>) {
    (origin.ManifestOf? || origin.DockerfileOf?) ==> origin.environment < |ENVIRONMENTS| && origin.service < |services|
  }

  lemma EndingOf(origin: Origin, services: seq<ServiceSpec>, unified: bool)
    requires InServices(origin, services)
    ensures var path := FileOf(origin, services, unified).path;
      && path != ""
      && (origin.MarkerOf? <==> Last(path) == 'n') && (origin.ReadmeOf? <==> Last(path) == 'd')
      && (origin.ManifestOf? <==> Last(path) == 'l') && (origin.DockerfileOf? <==> Last(path) == 'e')
  {
  }

  /** Different origins never share a file. */
  lemma OriginsDiffer(a: Origin, b: Origin, services: seq<ServiceSpec>, unified: bool)
    requires DistinctKeys(services) && InServices(a, services) && InServices(b, services)
    requires FileOf(a, services, unified) == FileOf(b, services, unified)
    ensures a == b
  {
    EndingOf(a, services, unified);
    EndingOf(b, services, unified);
    if a.ManifestOf? || a.DockerfileOf? {
      EnvironmentsDiffer(a.environment, b.environment);
      EnvironmentsDiffer(b.environment, a.environment);
      if a.ManifestOf? {
        ManifestPathsDiffer(ENVIRONMENTS[a.environment], services[a.service].key, ENVIRONMENTS[b.environment], services[b.service].key);
      } else {
        DockerfilePathsDiffer(ENVIRONMENTS[a.environment], services[a.service].key, ENVIRONMENTS[b.environment], services[b.service].key);
      }
    }
  }

  lemma TracedIsDistinct(files: seq<GeneratedFile>, origins: seq<Origin>, services: seq<ServiceSpec>, unified: bool, e: nat, s: nat)
    requires Traced(files, origins, services, unified, e, s) && DistinctKeys(services)
    ensures DistinctFiles(files)
  {
    forall i, j | 0 <= i < j < |files| ensures files[i] != files[j] {
      if files[i] == files[j] {
        OriginsDiffer(origins[i], origins[j], services, unified);
      }
    }
  }

  /** Every environment and service contributes at most one manifest and one Dockerfile, each under its own path: no
      repository gets a path twice, so a commit of these files is consistent. */
  method GenerateDeliveryFiles(services: seq<ServiceSpec>, unified: bool) returns (files: seq<GeneratedFile>)
    ensures DistinctKeys(services) ==> DistinctFiles(files)
    ensures forall e, s | 0 <= e < |ENVIRONMENTS| && 0 <= s < |services| ::
      && (!services[s].inRepository ==> FileOf(ManifestOf(e, s), services, unified) in files)
      && (!services[s].ownDockerfile ==> FileOf(DockerfileOf(e, s), services, unified) in files)
    ensures forall repository | IsWanted(MarkerOf(repository), services, unified) ::
      FileOf(MarkerOf(repository), services, unified) in files && FileOf(ReadmeOf(repository), services, unified) in files
    ensures forall file | file in files :: exists origin :: IsWanted(origin, services, unified) && file == FileOf(origin, services, unified)
  {
    ghost var origins;
    if unified {
      files, origins := [GeneratedFile(Delivery, MARKER), GeneratedFile(Delivery, README)], [MarkerOf(Delivery), ReadmeOf(Delivery)];
    } else {
      files := [GeneratedFile(Jenkinsfiles, MARKER), GeneratedFile(Jenkinsfiles, README),
                GeneratedFile(Manifests, MARKER), GeneratedFile(Manifests, README)];
      origins := [MarkerOf(Jenkinsfiles), ReadmeOf(Jenkinsfiles), MarkerOf(Manifests), ReadmeOf(Manifests)];
    }
    ghost var fixed := files;
    var e := 0;
    while e < |ENVIRONMENTS|
      invariant fixed <= files
      invariant 0 <= e <= |ENVIRONMENTS|
      invariant Traced(files, origins, services, unified, e, 0)
      invariant CoveredUpTo(files, services, unified, e, 0)
    {
      var s := 0;
      while s < |services|
        invariant 0 <= s <= |services| && fixed <= files
        invariant Traced(files, origins, services, unified, e, s)
        invariant CoveredUpTo(files, services, unified, e, s)
      {
        ghost var before := files;
        files, origins := AddService(files, origins, services, unified, e, s);
        CoverGrows(before, files, services, unified, e, s);
        s := s + 1;
      }
      assert Traced(files, origins, services, unified, e + 1, 0) && CoveredUpTo(files, services, unified, e + 1, 0);
      e := e + 1;
    }
    assert forall file | file in fixed :: file in files;
    forall file | file in files ensures exists origin :: IsWanted(origin, services, unified) && file == FileOf(origin, services, unified) {
      var i :| 0 <= i < |files| && files[i] == file;
      assert IsWanted(origins[i], services, unified);
    }
    if DistinctKeys(services) {
      TracedIsDistinct(files, origins, services, unified, e, 0);
    }
    forall f, s | 0 <= f < |ENVIRONMENTS| && 0 <= s < |services|
      ensures (!services[s].inRepository ==> FileOf(ManifestOf(f, s), services, unified) in files)
           && (!services[s].ownDockerfile ==> FileOf(DockerfileOf(f, s), services, unified) in files)
    {
      assert Covered(files, services, unified, f, s);
    }
  }

  /** The files a service asks for are listed. */
  predicate Covered(files: seq<GeneratedFile>, services: seq<ServiceSpec>, unified: bool, e: nat, s: nat)
    requires e < |ENVIRONMENTS| && s < |services|
  {
    && (!services[s].inRepository ==> FileOf(ManifestOf(e, s), services, unified) in files)
    && (!services[s].ownDockerfile ==> FileOf(DockerfileOf(e, s), services, unified) in files)
  }

  predicate CoveredUpTo(files: seq<GeneratedFile>, services: seq<ServiceSpec>, unified: bool, e: nat, s: nat) {
    forall f, k | 0 <= f < |ENVIRONMENTS| && 0 <= k < |services| && (f < e || (f == e && k < s)) :: Covered(files, services, unified, f, k)
  }

  lemma CoverGrows(before: seq<GeneratedFile>, files: seq<GeneratedFile>, services: seq<ServiceSpec>, unified: bool, e: nat, s: nat)
    requires CoveredUpTo(before, services, unified, e, s) && before <= files
    requires e < |ENVIRONMENTS| && s < |services| && Covered(files, services, unified, e, s)
    ensures CoveredUpTo(files, services, unified, e, s + 1)
  {
    forall f, k | 0 <= f < |ENVIRONMENTS| && 0 <= k < |services| && (f < e || (f == e && k < s + 1))
      ensures Covered(files, services, unified, f, k)
    {
      if f < e || k < s {
        assert Covered(before, services, unified, f, k);
        assert forall file | file in before :: file in files;
      }
    }
  }

  /** The files of one service in one environment. */
  method AddService(before: seq<GeneratedFile>, ghost traces: seq<Origin>, services: seq<ServiceSpec>, unified: bool, e: nat, s: nat)
    returns (files: seq<GeneratedFile>, ghost origins: seq<Origin>)
    requires e < |ENVIRONMENTS| && s < |services| && Traced(before, traces, services, unified, e, s)
    ensures before <= files && Traced(files, origins, services, unified, e, s + 1) && Covered(files, services, unified, e, s)
  {
    files, origins := before, traces;
    assert DockerfileOf(e, s) !in origins;
    if !services[s].inRepository {
      files, origins := files + [FileOf(ManifestOf(e, s), services, unified)], origins + [ManifestOf(e, s)];
    }
    if !services[s].ownDockerfile {
      files, origins := AddDockerfile(files, origins, services, unified, e, s);
    }
  }

  method AddDockerfile(before: seq<GeneratedFile>, ghost traces: seq<Origin>, services: seq<ServiceSpec>, unified: bool, e: nat, s: nat)
    returns (files: seq<GeneratedFile>, ghost origins: seq<Origin>)
    requires e < |ENVIRONMENTS| && s < |services| && DockerfileOf(e, s) !in traces && !services[s].ownDockerfile
    requires Traced(before, traces, services, unified, e, s + 1)
    ensures files == before + [FileOf(DockerfileOf(e, s), services, unified)] && Traced(files, origins, services, unified, e, s + 1)
  {
    files, origins := before + [FileOf(DockerfileOf(e, s), services, unified)], traces + [DockerfileOf(e, s)];
  }

  // ---------------------------------------------------------------- source repositories

  predicate PathChar(c: char) {
    'A' <= c <= 'Z' || 'a' <= c <= 'z' || '0' <= c <= '9' || c in {'.', '_', '-'}
  }

  /** `sourcePathPattern`: names of letters, digits, dots, underscores and dashes, joined by slashes. */
  predicate IsSourcePath(path: string) {
    AreNames(Split(path, '/'))
  }

  const SOURCE_MARKER := ".ops-deploy/source.json"
  const MAX_CONTENT := 0x100000

  function CleanPath(path: string): string { TrimSlashes(Trim(path)) }

  /** A file that may be written, given the paths listed before it. */
  predicate Acceptable(file: File, before: seq<File>) {
    && IsSourcePath(CleanPath(file.path)) && !Contains(CleanPath(file.path), "..") && |file.content| <= MAX_CONTENT
    && CleanPath(file.path) != SOURCE_MARKER
    && forall f | f in before :: CleanPath(f.path) != CleanPath(file.path)
  }

  predicate AllAcceptable(files: seq<File>) {
    forall i | 0 <= i < |files| :: Acceptable(files[i], files[..i])
  }

  /** A path of names joined by slashes. */
  lemma SourcePathMeans(name: string, rest: string)
    requires '/' !in name
    ensures IsSourcePath(name) <==>
      name != "" && forall c | c in name :: 'A' <= c <= 'Z' || 'a' <= c <= 'z' || '0' <= c <= '9' || c == '.' || c == '_' || c == '-'
    ensures IsSourcePath(name + "/" + rest) <==> IsSourcePath(name) && IsSourcePath(rest)
  {
    SplitUndoesJoin(name, '/', rest);
    assert Split(name, '/') == [name] && name in [name];
    assert name + "/" + rest == name + ['/'] + rest;
    NamesOf([name], Split(rest, '/'));
  }

  predicate AreNames(parts: seq<string>) {
    forall part | part in parts :: part != "" && forall c | c in part :: PathChar(c)
  }

  lemma NamesOf(a: seq<string>, b: seq<string>)
    ensures AreNames(a + b) <==> AreNames(a) && AreNames(b)
  {
    assert forall part :: part in a + b <==> part in a || part in b;
  }

  /** A file is refused for its path, for climbing out of the repository, for more than a mebibyte, for being the marker,
      and for a path that was listed before. */
  lemma AcceptableMeans(file: File, before: seq<File>)
    ensures var path := TrimSlashes(Trim(file.path));
      Acceptable(file, before) <==>
        && IsSourcePath(path) && !Contains(path, "..") && |file.content| <= 1024 * 1024
        && path != ".ops-deploy/source.json" && forall f | f in before :: TrimSlashes(Trim(f.path)) != path
  {
  }

  lemma SeenIsListed(list: seq<File>, files: seq<File>, marker: string, path: string)
    requires |list| == |files| + 1 && list[0] == File(SOURCE_MARKER, marker)
    requires forall k | 0 <= k < |files| :: list[k + 1] == File(CleanPath(files[k].path), files[k].content)
    ensures path in Written(list) <==> path == SOURCE_MARKER || exists f | f in files :: CleanPath(f.path) == path
  {
    if path in Written(list) {
      var k :| 0 <= k < |list| && list[k].path == path;
      if k > 0 {
        assert files[k - 1] in files && list[k - 1 + 1] == File(CleanPath(files[k - 1].path), files[k - 1].content);
      }
    }
    if f :| f in files && CleanPath(f.path) == path {
      var k :| 0 <= k < |files| && files[k] == f;
      assert list[k + 1] in list;
    }
    assert list[0] in list;
  }

  /** The list `EnsureSourceRepository` commits: the ownership marker, then every file once; or nothing, exactly when a
      file is not acceptable. */
  method CollectSourceFiles(marker: string, files: seq<File>) returns (generated: Option<seq<File>>)
    ensures generated.Some? <==> AllAcceptable(files)
    ensures generated.Some? ==>
      && |generated.value| == |files| + 1 && generated.value[0] == File(SOURCE_MARKER, marker)
      && (forall i | 0 <= i < |files| :: generated.value[i + 1] == File(CleanPath(files[i].path), files[i].content))
      && DistinctPaths(generated.value)
  {
    var list := [File(SOURCE_MARKER, marker)];
    var seen := {SOURCE_MARKER};
    var i := 0;
    while i < |files|
      invariant 0 <= i <= |files| && |list| == i + 1 && list[0] == File(SOURCE_MARKER, marker)
      invariant forall k | 0 <= k < i :: list[k + 1] == File(CleanPath(files[k].path), files[k].content)
      invariant DistinctPaths(list) && seen == Written(list)
      invariant forall k | 0 <= k < i :: Acceptable(files[k], files[..k])
    {
      var path := CleanPath(files[i].path);
      SeenIsListed(list, files[..i], marker, path);
      if !IsSourcePath(path) || Contains(path, "..") || path in seen || |files[i].content| > MAX_CONTENT {
        assert !Acceptable(files[i], files[..i]);
        return None;
      }
      ghost var before := list;
      seen := seen + {path};
      list := list + [File(path, files[i].content)];
      assert Written(list) == Written(before) + {path};
      forall k | 0 <= k < |before| ensures before[k].path != path {
        assert before[k] in before;
      }
      i := i + 1;
    }
    return Some(list);
  }

  /** `EnsureSourceRepository`, from the list on: success leaves the branch with the marker and every file. */
  method WriteSourceFiles(branch: Branch, marker: string, files: seq<File>, accepted: bool) returns (ok: bool)
    modifies branch
    ensures ok ==> AllAcceptable(files) && At(branch.tree, SOURCE_MARKER) == Some(marker)
    ensures ok ==> forall f | f in files :: At(branch.tree, CleanPath(f.path)) == Some(f.content)
    ensures ok ==> forall path | path in old(branch.tree) ::
      path != SOURCE_MARKER && (forall f | f in files :: CleanPath(f.path) != path) ==> At(branch.tree, path) == At(old(branch.tree), path)
    ensures !ok ==> branch.tree == old(branch.tree)
    ensures AllAcceptable(files) && accepted ==> ok
  {
    var generated := CollectSourceFiles(marker, files);
    if generated.None? {
      return false;
    }
    var list := generated.value;
    DistinctPathsAreAccepted(branch.tree, list, []);
    ok := branch.CommitFiles(list, accepted);
    if ok {
      assert list[0] in list;
      forall f | f in files ensures File(CleanPath(f.path), f.content) in list {
        var i :| 0 <= i < |files| && files[i] == f;
        assert list[i + 1] == File(CleanPath(f.path), f.content);
      }
      forall g | g in list ensures g.path == SOURCE_MARKER || exists f | f in files :: CleanPath(f.path) == g.path {
        var i :| 0 <= i < |list| && list[i] == g;
        if i > 0 {
          assert files[i - 1] in files && list[i - 1 + 1] == File(CleanPath(files[i - 1].path), files[i - 1].content);
        }
      }
      assert Doomed(list, []) == {};
      forall f | f in files ensures At(branch.tree, CleanPath(f.path)) == Some(f.content) {
        var g := File(CleanPath(f.path), f.content);
        assert g in list && At(branch.tree, g.path) == Some(g.content);
      }
    }
  }
}
