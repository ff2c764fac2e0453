/**
 * The post-generation hook. After the template has been rendered it compares two
 * answers, `open_source_license` and `ci_tool`, with fixed strings and deletes the
 * generated files that do not belong to the chosen options: the contributor list and
 * license text, the GPLv3 copying file, the Gitlab CI file and the `.github` tree.
 * A deletion whose target is missing raises, and the exception ends the hook.
 */
module PostGenHook {
  import opened Wrappers
  import opened Seqs
  import Text

  /** A path relative to the generated project's root, e.g. ".github/workflows/ci.yml". */
  type Path = string

  datatype Kind = File | Directory

  /** The rendered project: every file and directory it holds, by path. */
  type Tree = map<Path, Kind>

  /** The exceptions `Path.unlink()` and `shutil.rmtree()` raise. */
  datatype FsError =
    | FileNotFound(path: Path)
    | IsADirectory(path: Path)
    | NotADirectory(path: Path)

  /** A tree after an attempted change, with the exception that stopped it, if any. */
  datatype Outcome = Outcome(tree: Tree, error: Option<FsError>)

  const OpenSourceFiles: seq<Path> := ["CONTRIBUTORS.txt", "LICENSE"]
  const Gplv3Files: seq<Path> := ["COPYING"]
  const GitlabCiFile: Path := ".gitlab-ci.yml"
  const GithubFolder: Path := ".github"

  /** The rendered answers the hook reads. */
  datatype Answers = Answers(openSourceLicense: string, ciTool: string, debug: string)

  // ---------------------------------------------------------------------------
  // The decision table
  // ---------------------------------------------------------------------------

  /** The four deletions the hook can make, one per `remove_*` function. */
  datatype Removal =
    | OpenSourceFilesRemoval
    | Gplv3FilesRemoval
    | GitlabCiRemoval
    | GithubFolderRemoval

  /** Whether the answers call for a deletion. */
  predicate Selected(a: Answers, g: Removal) {
    match g
    case OpenSourceFilesRemoval => a.openSourceLicense == "Not open source"
    case Gplv3FilesRemoval => a.openSourceLicense != "GPLv3"
    case GitlabCiRemoval => a.ciTool != "Gitlab"
    case GithubFolderRemoval => a.ciTool != "Github"
  }

  /** The deletions `main` makes, in the order it makes them. */
  function Plan(a: Answers): (plan: seq<Removal>)
    ensures forall g :: g in plan <==> Selected(a, g)
    ensures Distinct(plan)
  {
    (if a.openSourceLicense == "Not open source" then [OpenSourceFilesRemoval] else [])
    + (if a.openSourceLicense != "GPLv3" then [Gplv3FilesRemoval] else [])
    + (if a.ciTool != "Gitlab" then [GitlabCiRemoval] else [])
    + (if a.ciTool != "Github" then [GithubFolderRemoval] else [])
  }

  /** The debug flag `main` computes from the rendered debug answer, lower-cased and
      compared with "y", and then never uses. */
  function Debug(a: Answers): (r: bool)
    ensures r <==> a.debug == "y" || a.debug == "Y"
  {
    Text.Lower(a.debug) == "y"
  }

  // ---------------------------------------------------------------------------
  // Paths each deletion concerns
  // ---------------------------------------------------------------------------

  /** `p` is the directory `d` or lies somewhere below it. */
  predicate UnderDir(p: Path, d: Path) {
    p == d || (|p| > |d| && p[..|d|] == d && p[|d|] == '/')
  }

  /** The paths a deletion removes. */
  predicate InGroup(g: Removal, p: Path) {
    match g
    case OpenSourceFilesRemoval => p in OpenSourceFiles
    case Gplv3FilesRemoval => p in Gplv3Files
    case GitlabCiRemoval => p == GitlabCiFile
    case GithubFolderRemoval => UnderDir(p, GithubFolder)
  }

  /** The paths a deletion names, which must exist for it to succeed. */
  function Targets(g: Removal): seq<Path> {
    match g
    case OpenSourceFilesRemoval => OpenSourceFiles
    case Gplv3FilesRemoval => Gplv3Files
    case GitlabCiRemoval => [GitlabCiFile]
    case GithubFolderRemoval => [GithubFolder]
  }

  /** What each target must be: `unlink` wants a file, `rmtree` a directory. */
  function TargetKind(g: Removal): Kind {
    if g == GithubFolderRemoval then Directory else File
  }

  /** Everything the deletion names exists in `t` with the kind it expects. */
  predicate Present(g: Removal, t: Tree) {
    forall i :: 0 <= i < |Targets(g)| ==> Targets(g)[i] in t && t[Targets(g)[i]] == TargetKind(g)
  }

  /** `t` without the paths of deletion `g`. */
  function Without(t: Tree, g: Removal): Tree {
    map p | p in t && !InGroup(g, p) :: t[p]
  }

  /** Some deletion of the plan removes `p`. */
  predicate RemovedBy(plan: seq<Removal>, p: Path) {
    exists g :: g in plan && InGroup(g, p)
  }

  /** `t` without the paths of every deletion of the plan. */
  function WithoutAll(t: Tree, plan: seq<Removal>): Tree {
    map p | p in t && !RemovedBy(plan, p) :: t[p]
  }

  // ---------------------------------------------------------------------------
  // The filesystem calls and the hook, on values
  // ---------------------------------------------------------------------------

  /** Unlinking one path, which must exist (no missing-ok flag) and must not be a
      directory. */
  function AfterUnlink(t: Tree, p: Path): Outcome {
    if p !in t then Outcome(t, Some(FileNotFound(p)))
    else if t[p] == Directory then Outcome(t, Some(IsADirectory(p)))
    else Outcome(t - {p}, None)
  }

  /** Unlinking each name in turn; the first failure ends the loop. */
  function AfterUnlinks(t: Tree, names: seq<Path>): Outcome
    decreases |names|
  {
    if names == [] then Outcome(t, None)
    else
      var o := AfterUnlink(t, names[0]);
      if o.error.Some? then o else AfterUnlinks(o.tree, names[1..])
  }

  /** Removing a directory tree: the directory and everything below it. */
  function AfterRmtree(t: Tree, d: Path): Outcome {
    if d !in t then Outcome(t, Some(FileNotFound(d)))
    else if t[d] == File then Outcome(t, Some(NotADirectory(d)))
    else Outcome(map p | p in t && !UnderDir(p, d) :: t[p], None)
  }

  /** One `remove_*` function. */
  function AfterRemoval(t: Tree, g: Removal): Outcome {
    match g
    case OpenSourceFilesRemoval => AfterUnlinks(t, OpenSourceFiles)
    case Gplv3FilesRemoval => AfterUnlinks(t, Gplv3Files)
    case GitlabCiRemoval => AfterUnlink(t, GitlabCiFile)
    case GithubFolderRemoval => AfterRmtree(t, GithubFolder)
  }

  /** Deletions in sequence; an exception ends the sequence. */
  function AfterRemovals(t: Tree, plan: seq<Removal>): Outcome
    decreases |plan|
  {
    if plan == [] then Outcome(t, None)
    else
      var o := AfterRemoval(t, plan[0]);
      if o.error.Some? then o else AfterRemovals(o.tree, plan[1..])
  }

  /** Unfolding a plan's first deletion. */
  lemma RemovalsCons(t: Tree, g: Removal, rest: seq<Removal>)
    ensures AfterRemovals(t, [g] + rest)
            == (var o := AfterRemoval(t, g); if o.error.Some? then o else AfterRemovals(o.tree, rest))
  {
    assert ([g] + rest)[0] == g && ([g] + rest)[1..] == rest;
  }

  /** The plan as its four guarded parts, grouped from the right as `RunHook` consumes it. */
  lemma PlanParts(a: Answers)
    ensures Plan(a) == (if a.openSourceLicense == "Not open source" then [OpenSourceFilesRemoval] else [])
                       + ((if a.openSourceLicense != "GPLv3" then [Gplv3FilesRemoval] else [])
                       + ((if a.ciTool != "Gitlab" then [GitlabCiRemoval] else [])
                       + (if a.ciTool != "Github" then [GithubFolderRemoval] else [])))
  {
  }

  /** The hook's entry point: the planned deletions, in source order. */
  function AfterHook(t: Tree, a: Answers): Outcome {
    AfterRemovals(t, Plan(a))
  }

  // ---------------------------------------------------------------------------
  // Proofs
  // ---------------------------------------------------------------------------

  /** The unlinks succeed exactly when every name is an existing file: each unlink
      removes only its own name, so with distinct names no later one is affected. */
  lemma {:induction false} UnlinksSucceedIff(t: Tree, names: seq<Path>)
    requires Distinct(names)
    ensures AfterUnlinks(t, names).error.None? <==>
              (forall i :: 0 <= i < |names| ==> names[i] in t && t[names[i]] == File)
  {
    if names != [] {
      var n := names[0];
      var rest := names[1..];
      if AfterUnlink(t, n).error.None? {
        var t' := t - {n};
        assert forall i :: 0 <= i < |rest| ==> rest[i] == names[i + 1] && rest[i] != n;
        UnlinksSucceedIff(t', rest);
        if forall i :: 0 <= i < |rest| ==> rest[i] in t' && t'[rest[i]] == File {
          forall i | 0 <= i < |names| ensures names[i] in t && t[names[i]] == File {
            if i > 0 { assert names[i] == rest[i - 1]; }
          }
        }
      } else {
        assert !(names[0] in t && t[names[0]] == File);
      }
    }
  }

  /** Successful unlinks remove exactly the names. */
  lemma {:induction false} UnlinksTree(t: Tree, names: seq<Path>)
    ensures AfterUnlinks(t, names).error.None? ==>
              AfterUnlinks(t, names).tree == map p | p in t && p !in names :: t[p]
  {
    if names != [] {
      var n := names[0];
      var rest := names[1..];
      if AfterUnlink(t, n).error.None? {
        var t' := t - {n};
        UnlinksTree(t', rest);
        forall p ensures p in names <==> p == n || p in rest {
          assert names == [n] + rest;
        }
      }
    }
  }

  /** Unlinks, successful or not, add nothing and leave every other path as it was. */
  lemma {:induction false} UnlinksFrame(t: Tree, names: seq<Path>)
    ensures AfterUnlinks(t, names).tree.Keys <= t.Keys
    ensures forall p :: p in t && p !in names ==>
              p in AfterUnlinks(t, names).tree && AfterUnlinks(t, names).tree[p] == t[p]
  {
    if names != [] {
      var n := names[0];
      var rest := names[1..];
      if AfterUnlink(t, n).error.None? {
        UnlinksFrame(t - {n}, rest);
        assert forall p :: p in rest ==> p in names;
      }
    }
  }

  /** Unlinking distinct names succeeds exactly when each is a file, and then removes
      exactly those names; success or not, nothing else is touched. */
  lemma UnlinksClosedForm(t: Tree, names: seq<Path>)
    requires Distinct(names)
    ensures AfterUnlinks(t, names).error.None? <==>
              (forall i :: 0 <= i < |names| ==> names[i] in t && t[names[i]] == File)
    ensures AfterUnlinks(t, names).error.None? ==>
              AfterUnlinks(t, names).tree == map p | p in t && p !in names :: t[p]
    ensures AfterUnlinks(t, names).tree.Keys <= t.Keys
    ensures forall p :: p in t && p !in names ==>
              p in AfterUnlinks(t, names).tree && AfterUnlinks(t, names).tree[p] == t[p]
  {
    UnlinksSucceedIff(t, names);
    UnlinksTree(t, names);
    UnlinksFrame(t, names);
  }

  /** No path belongs to two deletions. */
  lemma GroupsDisjoint(g: Removal, h: Removal, p: Path)
    requires g != h && InGroup(g, p)
    ensures !InGroup(h, p)
  {
    if UnderDir(p, GithubFolder) && p != GithubFolder {
      assert p[..7] == ".github";
      assert p[1] == 'g' && p[3] == 't' && p[4] == 'h';
    }
  }

  /** The targets of a deletion belong to it. */
  lemma TargetsInGroup(g: Removal, i: int)
    requires 0 <= i < |Targets(g)|
    ensures InGroup(g, Targets(g)[i])
  {
  }

  /** A deletion's own target is gone after it, so it cannot be made twice. */
  lemma NotPresentAfterward(t: Tree, g: Removal)
    ensures !Present(g, Without(t, g))
  {
    TargetsInGroup(g, 0);
  }

  /** Removing one deletion's paths does not change whether another can succeed. */
  lemma PresentUnaffected(t: Tree, g: Removal, h: Removal)
    requires g != h
    ensures Present(g, Without(t, h)) <==> Present(g, t)
  {
    forall i | 0 <= i < |Targets(g)| ensures !InGroup(h, Targets(g)[i]) {
      TargetsInGroup(g, i);
      GroupsDisjoint(g, h, Targets(g)[i]);
    }
  }

  /** One deletion succeeds exactly when its targets are present, and then removes
      exactly its paths; success or not, no other path changes. */
  lemma RemovalClosedForm(t: Tree, g: Removal)
    ensures AfterRemoval(t, g).error.None? <==> Present(g, t)
    ensures AfterRemoval(t, g).error.None? ==> AfterRemoval(t, g).tree == Without(t, g)
    ensures AfterRemoval(t, g).tree.Keys <= t.Keys
    ensures forall p :: p in t && !InGroup(g, p) ==>
              p in AfterRemoval(t, g).tree && AfterRemoval(t, g).tree[p] == t[p]
  {
    match g
    case OpenSourceFilesRemoval =>
      UnlinksClosedForm(t, OpenSourceFiles);
      assert Targets(g) == OpenSourceFiles;
    case Gplv3FilesRemoval =>
      UnlinksClosedForm(t, Gplv3Files);
      assert Targets(g) == Gplv3Files;
    case GitlabCiRemoval =>
      assert |Targets(g)| == 1 && Targets(g)[0] == GitlabCiFile;
      assert Present(g, t) <==> GitlabCiFile in t && t[GitlabCiFile] == File;
    case GithubFolderRemoval =>
      assert |Targets(g)| == 1 && Targets(g)[0] == GithubFolder;
      assert Present(g, t) <==> GithubFolder in t && t[GithubFolder] == Directory;
  }

  /** A plan without repeated deletions succeeds exactly when every deletion's targets
      are present in the starting tree, and then leaves exactly the paths no deletion
      of the plan concerns. Whether it succeeds or not, such paths keep their kind. */
  lemma {:induction false} RemovalsClosedForm(t: Tree, plan: seq<Removal>)
    requires Distinct(plan)
    ensures AfterRemovals(t, plan).error.None? <==> (forall g :: g in plan ==> Present(g, t))
    ensures AfterRemovals(t, plan).error.None? ==> AfterRemovals(t, plan).tree == WithoutAll(t, plan)
    ensures AfterRemovals(t, plan).tree.Keys <= t.Keys
    ensures forall p :: p in t && !RemovedBy(plan, p) ==>
              p in AfterRemovals(t, plan).tree && AfterRemovals(t, plan).tree[p] == t[p]
  {
    if plan != [] {
      var g := plan[0];
      var rest := plan[1..];
      assert plan == [g] + rest;
      RemovalClosedForm(t, g);
      var o := AfterRemoval(t, g);
      assert forall h :: h in plan <==> h == g || h in rest;
      if o.error.None? {
        var t' := Without(t, g);
        assert g !in rest by {
          forall i | 0 <= i < |rest| ensures rest[i] != g { assert rest[i] == plan[i + 1]; }
        }
        assert Distinct(rest) by {
          forall i, j | 0 <= i < j < |rest| ensures rest[i] != rest[j] {
            assert rest[i] == plan[i + 1] && rest[j] == plan[j + 1];
          }
        }
        RemovalsClosedForm(t', rest);
        forall h | h in rest ensures Present(h, t') <==> Present(h, t) {
          PresentUnaffected(t, h, g);
        }
        forall p ensures RemovedBy(plan, p) <==> InGroup(g, p) || RemovedBy(rest, p) {
          if RemovedBy(plan, p) {
            var h :| h in plan && InGroup(h, p);
          }
        }
        if AfterRemovals(t', rest).error.None? {
          assert WithoutAll(t', rest) == WithoutAll(t, plan);
        }
      } else {
        forall p | p in t && !RemovedBy(plan, p) ensures !InGroup(g, p) {
          assert g in plan;
        }
      }
    }
  }

  /** The hook succeeds exactly when every file and directory its answers let it delete
      exists with the right kind; it then leaves the rendered tree minus exactly those
      paths. Success or not, no other path is touched: the license rules and the CI rules
      concern disjoint paths. */
  lemma HookClosedForm(t: Tree, a: Answers)
    ensures AfterHook(t, a).error.None? <==> (forall g :: Selected(a, g) ==> Present(g, t))
    ensures AfterHook(t, a).error.None? ==> AfterHook(t, a).tree == WithoutAll(t, Plan(a))
    ensures forall p :: p in AfterHook(t, a).tree ==> p in t
    ensures forall p :: p in t && !RemovedBy(Plan(a), p) ==>
              p in AfterHook(t, a).tree && AfterHook(t, a).tree[p] == t[p]
  {
    RemovalsClosedForm(t, Plan(a));
  }

  /** Two plans with the same deletions, each without repeats, agree on whether they
      succeed and, when they do, leave the same tree. A failing run's exception and
      partial tree depend on the order. */
  lemma OrderIrrelevant(t: Tree, plan: seq<Removal>, other: seq<Removal>)
    requires Distinct(plan) && Distinct(other)
    requires forall g :: g in plan <==> g in other
    ensures AfterRemovals(t, plan).error.None? <==> AfterRemovals(t, other).error.None?
    ensures AfterRemovals(t, plan).error.None? ==>
              AfterRemovals(t, plan).tree == AfterRemovals(t, other).tree
  {
    RemovalsClosedForm(t, plan);
    RemovalsClosedForm(t, other);
    SameRemovals(t, plan, other);
  }

  /** Plans with the same deletions leave the same paths. */
  lemma SameRemovals(t: Tree, plan: seq<Removal>, other: seq<Removal>)
    requires forall g :: g in plan <==> g in other
    ensures WithoutAll(t, plan) == WithoutAll(t, other)
  {
    forall p ensures RemovedBy(plan, p) <==> RemovedBy(other, p) {
      if RemovedBy(plan, p) { var g :| g in plan && InGroup(g, p); assert g in other; }
      if RemovedBy(other, p) { var g :| g in other && InGroup(g, p); assert g in plan; }
    }
  }

  /** Running the CI rules before the license rules agrees with `main` on whether the run
      succeeds and, when it does, on the resulting tree. The exception raised and the
      partial tree left by a failing run can differ. */
  lemma CiRulesFirst(t: Tree, a: Answers)
    ensures var swapped := (if a.ciTool != "Gitlab" then [GitlabCiRemoval] else [])
                           + (if a.ciTool != "Github" then [GithubFolderRemoval] else [])
                           + (if a.openSourceLicense == "Not open source" then [OpenSourceFilesRemoval] else [])
                           + (if a.openSourceLicense != "GPLv3" then [Gplv3FilesRemoval] else []);
            (AfterHook(t, a).error.None? <==> AfterRemovals(t, swapped).error.None?)
            && (AfterHook(t, a).error.None? ==> AfterHook(t, a).tree == AfterRemovals(t, swapped).tree)
  {
    var swapped := (if a.ciTool != "Gitlab" then [GitlabCiRemoval] else [])
                   + (if a.ciTool != "Github" then [GithubFolderRemoval] else [])
                   + (if a.openSourceLicense == "Not open source" then [OpenSourceFilesRemoval] else [])
                   + (if a.openSourceLicense != "GPLv3" then [Gplv3FilesRemoval] else []);
    assert forall g :: g in swapped <==> Selected(a, g);
    OrderIrrelevant(t, Plan(a), swapped);
  }

  /** `debug` has no effect on what the hook deletes. */
  lemma DebugIrrelevant(t: Tree, a: Answers, debug: string)
    ensures AfterHook(t, a.(debug := debug)) == AfterHook(t, a)
  {
  }

  /** The hook cannot be run twice: whatever it deleted the first time is missing the
      second time, and every answer makes it delete at least one CI artifact. */
  lemma SecondRunFails(t: Tree, a: Answers)
    requires AfterHook(t, a).error.None?
    ensures AfterHook(AfterHook(t, a).tree, a).error.Some?
  {
    HookClosedForm(t, a);
    var g := if a.ciTool != "Gitlab" then GitlabCiRemoval else GithubFolderRemoval;
    assert Selected(a, g);
    var t' := WithoutAll(t, Plan(a));
    assert t' == Without(t', g) by {
      forall p | p in t' ensures !InGroup(g, p) { assert g in Plan(a); }
    }
    NotPresentAfterward(t', g);
    HookClosedForm(t', a);
  }

  /** A path of deletion `g` is removed by the hook exactly when `g` is selected. */
  lemma RemovedByIff(a: Answers, g: Removal, p: Path)
    requires InGroup(g, p)
    ensures RemovedBy(Plan(a), p) <==> Selected(a, g)
  {
    if RemovedBy(Plan(a), p) {
      var h :| h in Plan(a) && InGroup(h, p);
      if h != g { GroupsDisjoint(g, h, p); }
    }
    if Selected(a, g) { assert g in Plan(a); }
  }

  /** After a successful run, per path of the decision table: the contributor list and
      the license text survive unless the project is "Not open source"; the copying file
      survives only under "GPLv3"; the Gitlab CI file only under "Gitlab"; the `.github`
      tree only under "Github". */
  lemma DecisionTable(t: Tree, a: Answers)
    requires AfterHook(t, a).error.None?
    ensures var r := AfterHook(t, a).tree;
            && ("CONTRIBUTORS.txt" in r <==> "CONTRIBUTORS.txt" in t && a.openSourceLicense != "Not open source")
            && ("LICENSE" in r <==> "LICENSE" in t && a.openSourceLicense != "Not open source")
            && ("COPYING" in r <==> "COPYING" in t && a.openSourceLicense == "GPLv3")
            && (GitlabCiFile in r <==> GitlabCiFile in t && a.ciTool == "Gitlab")
            && (forall p :: UnderDir(p, GithubFolder) ==> (p in r <==> p in t && a.ciTool == "Github"))
  {
    HookClosedForm(t, a);
    RemovedByIff(a, OpenSourceFilesRemoval, "CONTRIBUTORS.txt");
    RemovedByIff(a, OpenSourceFilesRemoval, "LICENSE");
    RemovedByIff(a, Gplv3FilesRemoval, "COPYING");
    RemovedByIff(a, GitlabCiRemoval, GitlabCiFile);
    forall p | UnderDir(p, GithubFolder) ensures RemovedBy(Plan(a), p) <==> a.ciTool != "Github" {
      RemovedByIff(a, GithubFolderRemoval, p);
    }
  }

  /** "Not open source" removes all three license files. */
  lemma NotOpenSourceRemovesLicenseFiles(t: Tree, a: Answers)
    requires AfterHook(t, a).error.None?
    requires a.openSourceLicense == "Not open source"
    ensures var r := AfterHook(t, a).tree;
            "CONTRIBUTORS.txt" !in r && "LICENSE" !in r && "COPYING" !in r
  {
    DecisionTable(t, a);
  }

  /** At most one CI artifact survives, and the answer "None" keeps neither. */
  lemma AtMostOneCiArtifact(t: Tree, a: Answers)
    requires AfterHook(t, a).error.None?
    ensures !(GitlabCiFile in AfterHook(t, a).tree && GithubFolder in AfterHook(t, a).tree)
    ensures a.ciTool == "None" ==>
              GitlabCiFile !in AfterHook(t, a).tree && GithubFolder !in AfterHook(t, a).tree
  {
    DecisionTable(t, a);
    assert UnderDir(GithubFolder, GithubFolder);
  }

  /** The CI-tool table of the rendering test, for a tree rendered with both CI artifacts:
      "Github" keeps the workflow and drops the Gitlab file, "Gitlab" the reverse, and
      "None" drops both. */
  lemma CiToolScenarios(t: Tree, a: Answers)
    requires AfterHook(t, a).error.None?
    requires ".github/workflows/ci.yml" in t && GitlabCiFile in t
    ensures var r := AfterHook(t, a).tree;
            && (a.ciTool == "Github" ==> ".github/workflows/ci.yml" in r && GitlabCiFile !in r)
            && (a.ciTool == "Gitlab" ==> GitlabCiFile in r && ".github/workflows/ci.yml" !in r)
            && (a.ciTool == "None" ==> ".github/workflows/ci.yml" !in r && GitlabCiFile !in r)
  {
    var workflow := ".github/workflows/ci.yml";
    assert workflow[..7] == GithubFolder && workflow[7] == '/';
    assert UnderDir(workflow, GithubFolder);
    DecisionTable(t, a);
  }

  /** The end-to-end answers (MIT license, Github CI) delete exactly the copying file and
      the Gitlab CI file. */
  lemma DefaultAnswersPlan(a: Answers)
    requires a.openSourceLicense == "MIT" && a.ciTool == "Github"
    ensures Plan(a) == [Gplv3FilesRemoval, GitlabCiRemoval]
  {
  }

  // ---------------------------------------------------------------------------
  // The hook as it runs: the rendered tree as mutable state
  // ---------------------------------------------------------------------------

  /** The rendered project directory the hook works in. */
  class RenderedTree {
    var entries: Tree

    constructor (rendered: Tree)
      ensures entries == rendered
    {
      entries := rendered;
    }

    /** Unlinks one path. */
    method Unlink(p: Path) returns (error: Option<FsError>)
      modifies this
      ensures Outcome(entries, error) == AfterUnlink(old(entries), p)
    {
      if p !in entries {
        error := Some(FileNotFound(p));
      } else if entries[p] == Directory {
        error := Some(IsADirectory(p));
      } else {
        entries := entries - {p};
        error := None;
      }
    }

    /** Unlinks each name in turn, as the two license helpers' loops do. */
    method UnlinkAll(fileNames: seq<Path>) returns (error: Option<FsError>)
      modifies this
      ensures Outcome(entries, error) == AfterUnlinks(old(entries), fileNames)
    {
      var i := 0;
      error := None;
      while i < |fileNames|
        invariant 0 <= i <= |fileNames|
        invariant AfterUnlinks(old(entries), fileNames) == AfterUnlinks(entries, fileNames[i..])
        invariant error.None?
      {
        assert fileNames[i..] == [fileNames[i]] + fileNames[i + 1..];
        error := Unlink(fileNames[i]);
        if error.Some? {
          return;
        }
        i := i + 1;
      }
      assert fileNames[i..] == [];
    }

    /** Removes a directory tree. */
    method Rmtree(d: Path) returns (error: Option<FsError>)
      modifies this
      ensures Outcome(entries, error) == AfterRmtree(old(entries), d)
    {
      if d !in entries {
        error := Some(FileNotFound(d));
      } else if entries[d] == File {
        error := Some(NotADirectory(d));
      } else {
        entries := map p | p in entries && !UnderDir(p, d) :: entries[p];
        error := None;
      }
    }

    method RemoveOpenSourceFiles() returns (error: Option<FsError>)
      modifies this
      ensures Outcome(entries, error) == AfterRemoval(old(entries), OpenSourceFilesRemoval)
    {
      error := UnlinkAll(OpenSourceFiles);
    }

    method RemoveGplv3Files() returns (error: Option<FsError>)
      modifies this
      ensures Outcome(entries, error) == AfterRemoval(old(entries), Gplv3FilesRemoval)
    {
      error := UnlinkAll(Gplv3Files);
    }

    method RemoveDotGitlabCiYmlFile() returns (error: Option<FsError>)
      modifies this
      ensures Outcome(entries, error) == AfterRemoval(old(entries), GitlabCiRemoval)
    {
      error := Unlink(GitlabCiFile);
    }

    method RemoveDotGithubFolder() returns (error: Option<FsError>)
      modifies this
      ensures Outcome(entries, error) == AfterRemoval(old(entries), GithubFolderRemoval)
    {
      error := Rmtree(GithubFolder);
    }

    /** The hook's entry point: four guarded deletions in sequence; the first exception
        ends it. */
    method RunHook(a: Answers) returns (error: Option<FsError>)
      modifies this
      ensures Outcome(entries, error) == AfterHook(old(entries), a)
    {
      ghost var s1 := if a.openSourceLicense == "Not open source" then [OpenSourceFilesRemoval] else [];
      ghost var s2 := if a.openSourceLicense != "GPLv3" then [Gplv3FilesRemoval] else [];
      ghost var s3 := if a.ciTool != "Gitlab" then [GitlabCiRemoval] else [];
      ghost var s4 := if a.ciTool != "Github" then [GithubFolderRemoval] else [];
      PlanParts(a);
      var debug := Debug(a);
      error := None;

      if a.openSourceLicense == "Not open source" {
        RemovalsCons(entries, OpenSourceFilesRemoval, s2 + (s3 + s4));
        error := RemoveOpenSourceFiles();
        if error.Some? { return; }
      } else {
        assert s1 + (s2 + (s3 + s4)) == s2 + (s3 + s4);
      }
      assert AfterHook(old(entries), a) == AfterRemovals(entries, s2 + (s3 + s4));

      if a.openSourceLicense != "GPLv3" {
        RemovalsCons(entries, Gplv3FilesRemoval, s3 + s4);
        error := RemoveGplv3Files();
        if error.Some? { return; }
      } else {
        assert s2 + (s3 + s4) == s3 + s4;
      }
      assert AfterHook(old(entries), a) == AfterRemovals(entries, s3 + s4);

      if a.ciTool != "Gitlab" {
        RemovalsCons(entries, GitlabCiRemoval, s4);
        error := RemoveDotGitlabCiYmlFile();
        if error.Some? { return; }
      } else {
        assert s3 + s4 == s4;
      }
      assert AfterHook(old(entries), a) == AfterRemovals(entries, s4);

      if a.ciTool != "Github" {
        RemovalsCons(entries, GithubFolderRemoval, []);
        assert s4 == [GithubFolderRemoval] + [];
        error := RemoveDotGithubFolder();
      }
    }
  }
}
