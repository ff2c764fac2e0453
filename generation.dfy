/**
 * The generation test class: its class-level answers, the slug it derives for them,
 * and the project directory its tests look in.
 */
module Generation {
  import opened Wrappers
  import opened Slug
  import opened Conftest

  /** The answers written out in the class body, before the slug is added. */
  function ClassAnswers(): Context {
    map[
      "project_name" := "data-engineering",
      "description" := "Repository for data engineering.",
      "python_version" := "3.12",
      "author_name" := "John",
      "domain_name" := "example.com",
      "email" := "john@example.com",
      "airflow_version" := "2.10.0",
      "git_repo" := "https://github.com/",
      "open_source_license" := "MIT",
      "use_docker" := "y",
      "ci_tool" := "Github",
      "postgresql_version" := "16",
      "debug" := "n"
    ]
  }

  /** The class body's assignment of the slug chain's result, applied to the project
      name, to the project_slug key (overwriting any slug already there). A context
      without a project name would raise KeyError; the class body only applies it to
      `ClassAnswers()`, which has one. */
  function WithProjectSlug(c: Context): (r: Context)
    requires "project_name" in c
    ensures r.Keys == c.Keys + {"project_slug"}
    ensures r["project_slug"] == Slugify(c["project_name"])
    ensures forall k :: k in c && k != "project_slug" ==> r[k] == c[k]
    ensures ProjectSlug(r) == Success(r["project_slug"])
  {
    c["project_slug" := Slugify(c["project_name"])]
  }

  /** The class-level `context` once its slug has been added. */
  function ClassContext(): Context {
    WithProjectSlug(ClassAnswers())
  }

  /** The `generated_project` fixture: the template root joined with the class slug. */
  function GeneratedProject(templateRoot: string): string {
    JoinPath(templateRoot, ClassContext()["project_slug"])
  }

  /** The class derives the same slug as the conftest helper does for the same answers:
      the two method chains are one function. */
  lemma ClassSlugAgreesWithFixture(c: Context)
    requires "project_name" in c && "project_slug" !in c
    ensures ProjectSlug(c) == Success(WithProjectSlug(c)["project_slug"])
  {
  }

  /** The class answers are the default fixture's answers except for the PostgreSQL
      version ("16" here, "17" there). */
  lemma ClassAnswersAreDefaultsButOne()
    ensures ClassAnswers() == DefaultContext()["postgresql_version" := "16"]
    ensures DefaultContext()["postgresql_version"] == "17"
  {
  }

  /** The class slug is "data_engineering", the package name the pyproject check expects. */
  lemma ClassSlug()
    ensures ClassContext()["project_slug"] == "data_engineering"
  {
    SlugOfSeparatedName(ClassAnswers()["project_name"]);
  }

  /** The generated project's directory is named "data_engineering". */
  lemma GeneratedProjectName(templateRoot: string)
    ensures GeneratedProject(templateRoot) == JoinPath(templateRoot, "data_engineering")
    ensures PathName(GeneratedProject(templateRoot)) == "data_engineering"
  {
    ClassSlug();
    var slug := "data_engineering";
    PlainSegment(slug);
    JoinedName(templateRoot, slug);
  }
}
