/**
 * The shared test fixtures: the default answers, the copy-then-override helper,
 * and how a generated project's slug and directory are found.
 */
module Conftest {
  import opened Wrappers
  import opened Slug

  /** A template context: option name to answer. */
  type Context = map<string, string>

  /** The answers every test starts from. */
  function DefaultContext(): Context {
    map[
      "project_name" := "data-engineering",
      "description" := "Repository for data engineering.",
      "python_version" := "3.12",
      "author_name" := "John",
      "domain_name" := "example.com",
      "email" := "john@example.com",
      "airflow_version" := "2.10.0",
      "git_repo" := "https://github.com/",
      "open_source_license" := "MIT",
      "use_docker" := "y",
      "ci_tool" := "Github",
      "postgresql_version" := "17",
      "debug" := "n"
    ]
  }

  /** A copy of `defaults` updated with `overrides`: every key of either, the override's
      answer where there is one and the default's otherwise. `defaults` itself is a value
      and stays as it was. */
  function ModifyContext(defaults: Context, overrides: Context): (r: Context)
    ensures r.Keys == defaults.Keys + overrides.Keys
    ensures forall k :: k in overrides ==> r[k] == overrides[k]
    ensures forall k :: k in defaults && k !in overrides ==> r[k] == defaults[k]
  {
    defaults + overrides
  }

  /** The context has no project name, so the lookup of the name gives None, which
      cannot be lower-cased. */
  datatype SlugError = MissingProjectName

  /** The slug the helper looks for: an explicit project_slug answer if there is one,
      otherwise the slug chain applied to the project name. The fallback is an argument of
      the lookup, so Python evaluates it first, and a missing name is an error even when
      an explicit slug is present. */
  function ProjectSlug(context: Context): Result<string, SlugError> {
    if "project_name" !in context then Failure(MissingProjectName)
    else if "project_slug" in context then Success(context["project_slug"])
    else Success(Slugify(context["project_name"]))
  }

  /** Joining a child onto a root path with pathlib's `/` on POSIX paths, without
      pathlib's normalisation of "." and repeated separators. */
  function JoinPath(root: string, child: string): string {
    if |child| > 0 && child[0] == '/' then child
    else if child == [] then root
    else if root == [] then child
    else if root[|root| - 1] == '/' then root + child
    else root + "/" + child
  }

  /** The last component of a path string (`Path.name`): everything after the last '/'. */
  function PathName(p: string): string {
    if p == [] || p[|p| - 1] == '/' then [] else PathName(p[..|p| - 1]) + [p[|p| - 1]]
  }

  /** The output directory joined with the project slug: the directory the helper returns. */
  function ProjectPath(outputDir: string, context: Context): Result<string, SlugError> {
    match ProjectSlug(context)
    case Success(slug) => Success(JoinPath(outputDir, slug))
    case Failure(e) => Failure(e)
  }

  /** An explicit `project_slug` answer wins over the derived one. */
  lemma ExplicitSlugWins(context: Context)
    requires "project_name" in context && "project_slug" in context
    ensures ProjectSlug(context) == Success(context["project_slug"])
  {
  }

  /** Without a `project_slug` answer the slug is derived from the project name,
      whatever the other answers are. */
  lemma DerivedSlug(context: Context)
    requires "project_name" in context && "project_slug" !in context
    ensures ProjectSlug(context) == Success(Slugify(context["project_name"]))
  {
  }

  /** A context without a project name fails, with or without an explicit slug. */
  lemma MissingNameFails(context: Context)
    requires "project_name" !in context
    ensures ProjectSlug(context).Failure?
  {
  }

  /** Overriding the name of the default answers gives the slug of that name: the
      defaults carry no explicit slug. */
  lemma OverriddenNameSlug(name: string)
    ensures ProjectSlug(ModifyContext(DefaultContext(), map["project_name" := name])) == Success(Slugify(name))
  {
    var c := ModifyContext(DefaultContext(), map["project_name" := name]);
    assert "project_slug" !in DefaultContext();
    assert "project_slug" !in c;
  }

  /** The name of `x + c` is `c` when `x` is empty or ends with '/' and `c` has no '/'. */
  lemma {:induction false} PathNameOfAppend(x: string, c: string)
    requires x == [] || x[|x| - 1] == '/'
    requires forall i :: 0 <= i < |c| ==> c[i] != '/'
    ensures PathName(x + c) == c
  {
    if c == [] {
      assert x + c == x;
    } else {
      var c' := c[..|c| - 1];
      PathNameOfAppend(x, c');
      assert (x + c)[..|x + c| - 1] == x + c';
      assert c == c' + [c[|c| - 1]];
    }
  }

  /** A relative, non-empty child without '/' is the name of the joined path: the
      directory found for a project is named after its slug. */
  lemma JoinedName(root: string, child: string)
    requires |child| > 0
    requires forall i :: 0 <= i < |child| ==> child[i] != '/'
    ensures PathName(JoinPath(root, child)) == child
  {
    if root == [] {
      PathNameOfAppend([], child);
      assert [] + child == child;
    } else if root[|root| - 1] == '/' {
      PathNameOfAppend(root, child);
    } else {
      PathNameOfAppend(root + "/", child);
      assert root + "/" + child == (root + "/") + child;
    }
  }

  /** Overriding the project name of the default answers yields a directory named
      after that name's slug, provided the slug is a plain directory name. */
  lemma OverriddenNameDirectory(outputDir: string, name: string, slug: string)
    requires Slugify(name) == slug
    requires |slug| > 0 && forall i :: 0 <= i < |slug| ==> slug[i] != '/'
    ensures ProjectPath(outputDir, ModifyContext(DefaultContext(), map["project_name" := name]))
              == Success(JoinPath(outputDir, slug))
    ensures PathName(JoinPath(outputDir, slug)) == slug
  {
    OverriddenNameSlug(name);
    JoinedName(outputDir, slug);
  }

  /** The project directory found for each of the six pinned names is "data_engineering". */
  lemma ScenarioDirectoryName(outputDir: string, name: string)
    requires name in PinnedNames
    ensures ProjectPath(outputDir, ModifyContext(DefaultContext(), map["project_name" := name]))
              == Success(JoinPath(outputDir, "data_engineering"))
    ensures PathName(JoinPath(outputDir, "data_engineering")) == "data_engineering"
  {
    var slug := "data_engineering";
    assert |slug| > 0 && forall i :: 0 <= i < |slug| ==> slug[i] != '/' by {
      PlainSegment(slug);
    }
    PinnedSlugs(name);
    OverriddenNameDirectory(outputDir, name, slug);
  }

  /** "data_engineering" is a non-empty name without '/'. The literal is a parameter fixed
      by the requires so that the verifier checks it here once, apart from the larger goals
      above. */
  lemma PlainSegment(s: string)
    requires s == "data_engineering"
    ensures |s| > 0 && forall i :: 0 <= i < |s| ==> s[i] != '/'
  {
  }
}
