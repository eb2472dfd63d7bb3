/** Finding the file of a component and the import path that leads to it. */
module Components {
  import opened Wrappers
  import opened Text
  import opened RelPath
  import opened Imports

  // ---------------------------------------------------------------- finding components

  /** The repository as seen from one file. `present` says which places hold a file, `manifest` is the
      component manifest, `names` lists the importable component names in sorted order. */
  datatype Repo = Repo(file: Path, present: Place -> bool, manifest: map<string, Path>, names: seq<string>)

  predicate IsAlias(name: string) {
    name == "PrimaryButton" || name == "CTAButton" || name == "ActionButton"
  }

  function CanonicalKey(name: string): string {
    if IsAlias(name) then "PrimaryButton" else name
  }

  const UI: Path := ["apps", "web", "src", "components", "ui"]

  const SEARCH_DIRS: seq<Path> := [
    UI,
    ["apps", "web", "src", "components", "layout"],
    ["apps", "web", "src", "components", "landing"],
    ["apps", "web", "src", "components"]]

  function RegistryTarget(repo: Repo, key: string): seq<Path> {
    if key in repo.manifest then [repo.manifest[key]]
    else if key == "PrimaryButton" then [UI + ["PrimaryButton.vue"]]
    else if key == "SectionContainer" then [UI + ["SectionContainer.vue"]]
    else []
  }

  function FileNames(name: string): seq<string> {
    [name + ".vue"]
    + (if IsAlias(name) then ["Button.vue"] else [])
    + (if CanonicalKey(name) != name then [CanonicalKey(name) + ".vue"] else [])
  }

  function InDir(dir: Path, files: seq<string>): seq<Path> {
    if files == [] then [] else [dir + [files[0]]] + InDir(dir, files[1..])
  }

  function InDirs(dirs: seq<Path>, files: seq<string>): seq<Path> {
    if dirs == [] then [] else InDir(dirs[0], files) + InDirs(dirs[1..], files)
  }

  function Candidates(repo: Repo, name: string): seq<Path> {
    RegistryTarget(repo, CanonicalKey(name)) + InDirs(SEARCH_DIRS, FileNames(name))
  }

  /** Target `k` is the first that exists. */
  predicate FirstAt(repo: Repo, targets: seq<Path>, k: nat)
    requires k < |targets|
  {
    repo.present(Walk(ROOT, targets[k])) && forall j :: 0 <= j < k ==> !repo.present(Walk(ROOT, targets[j]))
  }

  function FirstExisting(repo: Repo, targets: seq<Path>): (r: Option<Path>)
    ensures r.None? <==> forall k :: 0 <= k < |targets| ==> !repo.present(Walk(ROOT, targets[k]))
    ensures r.Some? ==> exists k :: 0 <= k < |targets| && FirstAt(repo, targets, k) && targets[k] == r.value
  {
    if targets == [] then None
    else if repo.present(Walk(ROOT, targets[0])) then Some(targets[0])
    else FirstExisting(repo, targets[1..])
  }

  /** The import path for a component, relative to the importing file. */
  function ResolveComponent(repo: Repo, name: string): Option<string> {
    var target := FirstExisting(repo, Candidates(repo, name));
    if target.None? then None else Some(RelativeFrom(repo.file, target.value))
  }

  /** Does an import source point at something? Package names always do. */
  predicate ResolvesExisting(repo: Repo, source: string) {
    var src := Strip(source);
    if src == "" then false
    else if "@/" <= src then repo.present(Walk(ROOT, Split("apps/web/src/" + src[2..])))
    else if Dotted(src) then repo.present(Walk(Walk(ROOT, Parent(repo.file)), Split(src)))
    else true
  }

  predicate Target(p: Path) {
    CleanPath(p) && EndsVisibly(p)
  }

  /** The importing file is named from the repository root without parent steps, manifest paths are
      relative and trimmed, and no name is listed twice. */
  predicate WellFormed(repo: Repo) {
    && NoUps(Parent(repo.file))
    && (forall key :: key in repo.manifest ==> Target(repo.manifest[key]))
    && forall i, j :: 0 <= i < j < |repo.names| ==> repo.names[i] != repo.names[j]
  }

  lemma InDirTargets(dir: Path, files: seq<string>)
    requires CleanPath(dir) && forall k :: 0 <= k < |files| ==> Target([files[k]])
    ensures forall p :: p in InDir(dir, files) ==> Target(p)
  {
    if files != [] {
      InDirTargets(dir, files[1..]);
      var p := dir + [files[0]];
      assert Target([files[0]]);
      assert Clean([files[0]][0]);
      assert Target(p);
    }
  }

  lemma InDirsTargets(dirs: seq<Path>, files: seq<string>)
    requires (forall k :: 0 <= k < |dirs| ==> CleanPath(dirs[k])) && forall k :: 0 <= k < |files| ==> Target([files[k]])
    ensures forall p :: p in InDirs(dirs, files) ==> Target(p)
  {
    if dirs != [] {
      InDirTargets(dirs[0], files);
      InDirsTargets(dirs[1..], files);
    }
  }

  lemma VueFile(name: string)
    requires '/' !in name
    ensures Target([name + ".vue"])
  {
    var f := name + ".vue";
    assert f[|f| - 1] == 'e' && !IsSpace('e');
    assert f != "." by {
      assert |f| >= 4;
    }
  }

  lemma SearchDirsClean()
    ensures forall k :: 0 <= k < |SEARCH_DIRS| ==> CleanPath(SEARCH_DIRS[k])
    ensures CleanPath(UI)
  {
  }

  lemma CandidatesAreTargets(repo: Repo, name: string)
    requires WellFormed(repo) && '/' !in name
    ensures forall p :: p in Candidates(repo, name) ==> Target(p)
  {
    var files := FileNames(name);
    VueFile(name);
    VueFile("Button");
    VueFile(CanonicalKey(name));
    VueFile("SectionContainer");
    assert "Button" + ".vue" == "Button.vue";
    SearchDirsClean();
    assert forall k :: 0 <= k < |files| ==> Target([files[k]]);
    InDirsTargets(SEARCH_DIRS, files);
    RegistryIsTarget(repo, CanonicalKey(name));
  }

  lemma RegistryIsTarget(repo: Repo, key: string)
    requires WellFormed(repo)
    ensures forall p :: p in RegistryTarget(repo, key) ==> Target(p)
  {
    SearchDirsClean();
    VueFile("PrimaryButton");
    VueFile("SectionContainer");
    assert "PrimaryButton" + ".vue" == "PrimaryButton.vue" && "SectionContainer" + ".vue" == "SectionContainer.vue";
    var files := ["PrimaryButton.vue", "SectionContainer.vue"];
    InDirTargets(UI, files);
    assert InDir(UI, files)[0] == UI + [files[0]] && InDir(UI, files)[1] == UI + [files[1]];
  }

  /** What makes a rewritten import pass the existence check: the path written for a component that
      exists, read from the importing file, leads to that component. */
  lemma ResolvedExists(repo: Repo, name: string)
    requires WellFormed(repo) && '/' !in name && ResolveComponent(repo, name).Some?
    ensures ResolvesExisting(repo, ResolveComponent(repo, name).value)
  {
    var target := FirstExisting(repo, Candidates(repo, name)).value;
    CandidatesAreTargets(repo, name);
    RelativeResolves(repo, target);
  }

  lemma RelativeResolves(repo: Repo, target: Path)
    requires WellFormed(repo) && Target(target) && repo.present(Walk(ROOT, target))
    ensures ResolvesExisting(repo, RelativeFrom(repo.file, target))
  {
    var dir := Parent(repo.file);
    var rel := RelativeFrom(repo.file, target);
    RelativeIsTrimmed(dir, target);
    CleanRelative(dir, target);
    ReadInvertsWrite(RelativeParts(dir, target));
    RelativeLeadsToTarget(dir, target);
    assert NoUps(dir[Common(dir, target)..]);
    assert rel[0] == '.' && "@/"[0] == '@';
  }

  // ---------------------------------------------------------------- which file is found

  /** A manifest entry whose file exists wins over everything else; the three button names share one entry. */
  lemma ManifestWins(repo: Repo, name: string)
    requires var key := if name == "CTAButton" || name == "ActionButton" then "PrimaryButton" else name;
      key in repo.manifest && repo.present(Walk(ROOT, repo.manifest[key]))
    ensures var key := if name == "CTAButton" || name == "ActionButton" then "PrimaryButton" else name;
      ResolveComponent(repo, name) == Some(RelativeFrom(repo.file, repo.manifest[key]))
  {
    assert Candidates(repo, name)[0] == repo.manifest[CanonicalKey(name)];
  }

  function Src(): Path { ["apps", "web", "src"] }

  function Places(file: string): seq<Path> {
    [Src() + ["components", "ui", file], Src() + ["components", "layout", file],
     Src() + ["components", "landing", file], Src() + ["components", file]]
  }

  /** Other components are looked for among the primitives, then in layout, landing, and the folder itself. */
  lemma SearchedInOrder(repo: Repo, name: string)
    requires !IsAlias(name) && name != "SectionContainer" && name !in repo.manifest
    ensures Candidates(repo, name) == Places(name + ".vue")
  {
    var file := name + ".vue";
    assert FileNames(name) == [file];
    OneFile(SEARCH_DIRS, file);
    var found := InDirs(SEARCH_DIRS, [file]);
    assert Candidates(repo, name) == [] + found && |found| == 4;
    assert found[0] == Places(file)[0] && found[1] == Places(file)[1];
    assert found[2] == Places(file)[2] && found[3] == Places(file)[3];
  }

  lemma {:induction false} OneFile(dirs: seq<Path>, file: string)
    ensures |InDirs(dirs, [file])| == |dirs|
    ensures forall k :: 0 <= k < |dirs| ==> InDirs(dirs, [file])[k] == dirs[k] + [file]
  {
    if dirs != [] {
      OneFile(dirs[1..], file);
      assert [file][1..] == [];
      assert InDir(dirs[0], [file]) == [dirs[0] + [file]];
    }
  }

  ghost predicate Under(p: Path, dirs: seq<Path>, files: seq<string>) {
    exists d, f :: d in dirs && f in files && p == d + [f]
  }

  lemma {:induction false} InEveryDir(dirs: seq<Path>, files: seq<string>, p: Path)
    ensures p in InDirs(dirs, files) <==> Under(p, dirs, files)
  {
    if dirs != [] {
      InEveryDir(dirs[1..], files, p);
      InOneDir(dirs[0], files, p);
      assert dirs == [dirs[0]] + dirs[1..];
      assert p in InDirs(dirs, files) <==> p in InDir(dirs[0], files) || p in InDirs(dirs[1..], files);
      if f :| f in files && p == dirs[0] + [f] {
        assert dirs[0] in dirs && f in files;
      }
      if d, f :| d in dirs[1..] && f in files && p == d + [f] {
        assert d in dirs && f in files;
      }
      if d, f :| d in dirs && f in files && p == d + [f] {
        assert d == dirs[0] || (d in dirs[1..] && Under(p, dirs[1..], files));
      }
    }
  }

  lemma {:induction false} InOneDir(dir: Path, files: seq<string>, p: Path)
    ensures p in InDir(dir, files) <==> exists f :: f in files && p == dir + [f]
  {
    if files != [] {
      InOneDir(dir, files[1..], p);
      assert files == [files[0]] + files[1..];
    }
  }

  /** The buttons are looked for at their primitive's place first, then in the same folders, under their own name, as
      a plain button, and under the primitive's name. */
  lemma ButtonsSearched(repo: Repo, name: string, d: Path, f: string)
    requires IsAlias(name) && "PrimaryButton" !in repo.manifest
    requires d in SEARCH_DIRS
    ensures Candidates(repo, name)[0] == Src() + ["components", "ui", "PrimaryButton.vue"]
    ensures d + [f] in Candidates(repo, name) <==> f == name + ".vue" || f == "Button.vue" || f == "PrimaryButton.vue"
  {
    var files := FileNames(name);
    assert "PrimaryButton" + ".vue" == "PrimaryButton.vue";
    assert RegistryTarget(repo, CanonicalKey(name)) == [UI + ["PrimaryButton.vue"]];
    assert f in files <==> f == name + ".vue" || f == "Button.vue" || f == "PrimaryButton.vue";
    InEveryDir(SEARCH_DIRS, files, d + [f]);
    forall e, g | e in SEARCH_DIRS && g in files && d + [f] == e + [g] ensures f == g {
      assert (d + [f])[|d + [f]| - 1] == f && (e + [g])[|e + [g]| - 1] == g;
    }
    assert UI in SEARCH_DIRS;
    if d + [f] == UI + ["PrimaryButton.vue"] {
      assert (d + [f])[|d + [f]| - 1] == f && (UI + ["PrimaryButton.vue"])[|UI|] == "PrimaryButton.vue";
    }
  }

  /** And in this order, folder by folder. */
  lemma ButtonOrder(repo: Repo, name: string, k: nat)
    requires (name == "CTAButton" || name == "ActionButton") && "PrimaryButton" !in repo.manifest && k < 4
    ensures var found := Candidates(repo, name);
      && |found| == 13
      && found[1 + 3 * k] == SEARCH_DIRS[k] + [name + ".vue"]
      && found[2 + 3 * k] == SEARCH_DIRS[k] + ["Button.vue"]
      && found[3 + 3 * k] == SEARCH_DIRS[k] + ["PrimaryButton.vue"]
  {
    var files := FileNames(name);
    assert files == [name + ".vue", "Button.vue", "PrimaryButton.vue"] by {
      assert "PrimaryButton" + ".vue" == "PrimaryButton.vue";
    }
    assert RegistryTarget(repo, CanonicalKey(name)) == [UI + ["PrimaryButton.vue"]];
    ThreeFiles(SEARCH_DIRS, files);
    var found := InDirs(SEARCH_DIRS, files);
    assert Candidates(repo, name) == [UI + ["PrimaryButton.vue"]] + found;
    assert found[3 * k + 0] == SEARCH_DIRS[k] + [files[0]] && found[3 * k + 1] == SEARCH_DIRS[k] + [files[1]]
           && found[3 * k + 2] == SEARCH_DIRS[k] + [files[2]];
  }

  lemma {:induction false} InDirIs(dir: Path, files: seq<string>)
    ensures |InDir(dir, files)| == |files|
    ensures forall k :: 0 <= k < |files| ==> InDir(dir, files)[k] == dir + [files[k]]
  {
    if files != [] {
      InDirIs(dir, files[1..]);
    }
  }

  lemma {:induction false} ThreeFiles(dirs: seq<Path>, files: seq<string>)
    requires |files| == 3
    ensures |InDirs(dirs, files)| == 3 * |dirs|
    ensures forall k, j :: 0 <= k < |dirs| && 0 <= j < 3 ==> InDirs(dirs, files)[3 * k + j] == dirs[k] + [files[j]]
  {
    if dirs != [] {
      var rest := InDirs(dirs[1..], files);
      ThreeFiles(dirs[1..], files);
      InDirIs(dirs[0], files);
      forall k, j | 0 <= k < |dirs| && 0 <= j < 3 ensures InDirs(dirs, files)[3 * k + j] == dirs[k] + [files[j]] {
        if k > 0 {
          assert InDirs(dirs, files)[3 * k + j] == rest[3 * (k - 1) + j];
        }
      }
    }
  }

  // ---------------------------------------------------------------- which sources point at something

  /** A source under the alias is read from the web sources, whatever file imports it. */
  lemma AliasPoints(repo: Repo, p: Path)
    requires p != [] && CleanPath(p) && EndsVisibly(p)
    ensures ResolvesExisting(repo, "@/" + Join(p)) <==> repo.present(Walk(ROOT, Src() + p))
  {
    var source := "@/" + Join(p);
    JoinEnds(p);
    assert source[0] == '@' && source[|source| - 1] == Join(p)[|Join(p)| - 1];
    assert Clean(p[|p| - 1]);
    VisibleIsTrimmed(source);
    assert source[2..] == Join(p);
    var whole := Src() + p;
    assert Join(whole) == "apps/web/src/" + Join(p) by {
      assert whole[1..] == ["web", "src"] + p && whole[1..][1..] == ["src"] + p && whole[1..][1..][1..] == p;
      assert Join(["src"] + p) == "src" + ("/" + Join(p));
      assert Join(["web", "src"] + p) == "web" + ("/" + Join(["src"] + p));
      assert Join(whole) == "apps" + ("/" + Join(["web", "src"] + p));
    }
    assert CleanPath(whole);
    SplitInvertsJoin(whole);
    KeepClean(whole);
  }

  /** A package always points at something, a blank source never. */
  lemma PackagePoints(repo: Repo, source: string)
    ensures Blank(source) ==> !ResolvesExisting(repo, source)
    ensures source != "" && !IsSpace(source[0]) && source[0] != '.' && source[0] != '@' ==>
              ResolvesExisting(repo, source)
  {
    LeftStripBlank(source);
    if source != "" && !IsSpace(source[0]) && source[0] != '.' && source[0] != '@' {
      RightStripBlank(source);
      assert RightStrip(source) <= source;
    }
  }

  // ---------------------------------------------------------------- normalising a real file

  function ResolverOf(repo: Repo): Resolver {
    Resolver((name: string) => ResolveComponent(repo, name), (source: string) => ResolvesExisting(repo, source),
             repo.names)
  }

  /** Component resolution keeps the promise the import pass relies on. */
  lemma RepositoryIsSound(repo: Repo)
    requires WellFormed(repo)
    ensures Sound(ResolverOf(repo))
  {
    forall name: string | '/' !in name && ResolveComponent(repo, name).Some?
      ensures ResolvesExisting(repo, ResolveComponent(repo, name).value)
    {
      ResolvedExists(repo, name);
    }
  }

  /** In a repository, every default import of a normalised file resolves to something that exists, unless
      its symbol is reported; and a second pass repairs nothing exactly when the first had nothing to
      inject or found a script tag that ends its line. */
  lemma NormalizedFileResolves(repo: Repo, content: Content)
    requires WellFormed(repo) && Named(content)
    ensures var r := ResolverOf(repo);
      var out := Normalize(r, content);
      && (forall k :: 0 <= k < |out| && Default(out[k]) && out[k].symbol.value !in Reported(r, content) ==>
            ResolvesExisting(repo, out[k].source))
      && (Repairs(r, out) == 0 <==>
          PendingIn(r, content) == [] || (BlockTag(content).Some? && BlockTag(content).value.endsLine))
  {
    RepositoryIsSound(repo);
    SourcesPoint(ResolverOf(repo), content);
    SecondPassRepairs(ResolverOf(repo), content);
  }
}
