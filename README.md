# cookiecutter-airflow, modelled in Dafny

cookiecutter-airflow is a project template for Airflow data-engineering repositories.
This model covers the template's own logic, which lives outside the templated files:

- **The post-generation hook** (`hooks/post_gen_project.py`). It reads the rendered
  answers `open_source_license` and `ci_tool` and deletes the generated files that belong
  to options the user did not choose:
  - `CONTRIBUTORS.txt` and `LICENSE`, for "Not open source";
  - `COPYING`, for anything but "GPLv3";
  - `.gitlab-ci.yml`, for anything but "Gitlab";
  - the `.github` tree, for anything but "Github".

  The model is in `hook.dfy`, module `PostGenHook`, in two forms:
  - as values: a rendered tree is a map from relative path to file or directory, and each
    deletion returns the new tree together with the exception it raised, if any;
  - as the running script: the class `RenderedTree` holds the tree in a field, and its
    methods perform `unlink` and `rmtree` on it, each proved equal to the value-level
    function.
- **Slug derivation** used by the test helpers (`slug.dfy`, module `Slug`, over
  `text.dfy`, module `Text`). The chain is `lower`, `strip`, then deletion of every
  `" project"`, then `" "`, `":"`, `"-"` and `"!"` each replaced by `"_"`. Each Python
  string operation is modelled exactly, with ASCII characters.
- **The fixtures** (`conftest.dfy`, module `Conftest`):
  - `default_context`;
  - the copy-then-update helper `_modify_context`;
  - how `create_project_with_context` finds the project's slug and directory.
- **The generation test class** (`generation.dfy`, module `Generation`): its class-level
  answers and the slug and directory they lead to.
- **The DAG checks** of the generated project (`dags.dfy`, module `DagValidation`):
  - tags drawn from the approved list;
  - an owner on every task, with catch-up off;
  - at least one task or task group, and every trigger rule "all_success";
  - unique DAG ids.

  The checks run over DAGs given as plain records, together with the template's canary
  DAG.

The model follows the code, including where its behaviour is easy to misread:

- `str.replace` deletes *every* `" project"`, not only the first one.
- Deleting a path that does not exist raises `FileNotFoundError`; nothing guards against
  it. So the hook is not idempotent: `PostGenHook.SecondRunFails` proves that a second
  run on its own output always fails.
- The slug is not validated. The empty name gives the empty slug.
- `create_project_with_context` passes its default to `dict.get` as an argument, so Python
  evaluates it first. A context without `project_name` therefore fails even when it
  carries an explicit `project_slug` (`Conftest.MissingNameFails`).

## Model

| member | source | states |
|---|---|---|
| Text.IsSpace | tests/conftest.py:123 | definition of the characters strip removes: tab, line feed, vertical tab, form feed, carriage return, the four information separators 0x1C-0x1F, and space |
| Text.LowerChar | tests/conftest.py:122 | one character lower-cased: a capital moves down by 32 to its small letter, anything else is kept |
| Text.Lower | tests/conftest.py:122 | the result has the input's length and no ASCII capital; capitals move down by 32 and every other character is kept |
| Text.Strip | tests/conftest.py:123 | the result is a contiguous slice of the input, everything cut from either end is whitespace, and neither end of the result is whitespace |
| Text.StripOffset | tests/conftest.py:123 | where strip starts: every character before it is whitespace, and the one at it is not |
| Text.StripEnd | tests/conftest.py:123 | where strip ends: every character from it on is whitespace, and the one before it is not |
| Text.StripUnchanged | tests/conftest.py:123 | a string whose ends are not whitespace is unchanged by strip |
| Text.ReplaceAll | tests/conftest.py:124-128 | definition of replace with a non-empty pattern: scanning left to right, an occurrence at the current position is replaced and skipped, otherwise one character is kept; its properties are the lemmas below |
| Text.ReplaceCharAt | tests/conftest.py:125-128 | replacing one character by another keeps the length and maps that character, and only it, at every position |
| Text.ReplaceAbsent | tests/conftest.py:124 | a replacement whose pattern's first character does not occur leaves the string unchanged |
| Text.ReplaceAfterPrefix | tests/conftest.py:124 | when no occurrence of the pattern starts inside a prefix, that prefix passes through the replacement untouched |
| Text.ReplaceNone | tests/conftest.py:124 | a string with no occurrence of the pattern is unchanged by the replacement |
| Text.ReplaceKeepsLower | tests/conftest.py:124 | replacing with capital-free text in capital-free text introduces no capital |
| Slug.ReplaceSeparators | tests/conftest.py:125-128 | definition of the last four replacements in source order; SeparatorsPointwise states what they do |
| Slug.Slugify | tests/conftest.py:121-128 | definition of the chain: lower, strip, delete " project", then the four separator replacements in source order; its properties are the lemmas below |
| Slug.SeparatorsPointwise | tests/conftest.py:125-128 | the four separator replacements together map each of ' ', ':', '-' and '!' to '_' and keep every other character, position by position |
| Slug.SlugHasNoSeparators | tests/conftest.py:119-129 | no slug contains ' ', ':', '-' or '!' |
| Slug.SlugHasNoCapitals | tests/conftest.py:119-129 | no slug contains an ASCII capital |
| Slug.SlugPointwise | tests/conftest.py:119-129 | with no " project" in the lowered, stripped name, the slug is that text with each separator turned into '_' |
| Slug.SlugKeepsLength | tests/conftest.py:119-129 | a name whose ends are not whitespace and which has no " project" in any letter case keeps its length |
| Slug.SlugFixedPoint | tests/conftest.py:119-129 | a name of small letters, digits and '_' is its own slug |
| Slug.SlugOfPlainName | tests/conftest.py:119-129 | a name with no capital and no whitespace slugs to itself with separators turned into '_' |
| Slug.SlugOfUnqualifiedName | tests/conftest.py:119-129 | a name whose ends are not whitespace and which has no " project" in any letter case slugs to its lowered form with separators turned into '_' |
| Slug.SlugOfQualifiedName | tests/conftest.py:119-129 | a name that lowers to a stem followed by " project" slugs to the stem with separators turned into '_', provided the stem is non-empty, does not start with whitespace, and has no other " project" starting inside it |
| Slug.SlugIdempotent | tests/conftest.py:119-129 | slugifying a slug again changes nothing, provided the slug does not start or end with whitespace |
| Slug.SlugNotIdempotent | tests/conftest.py:123-124 | that proviso is needed: "a\t project" slugs to "a\t", whose own slug is "a" |
| Slug.SlugOfTrailingSpace | tests/conftest.py:123 | a small letter followed by one whitespace character slugs to the letter |
| Slug.SlugOfSeparatedName | tests/test_template_rendering.py:15-20 | "data-engineering", "data:engineering" and "data!engineering" each slug to "data_engineering" |
| Slug.SlugOfTitleCase | tests/test_template_rendering.py:16 | "Data Engineering" slugs to "data_engineering" |
| Slug.SlugOfSnakeCase | tests/test_template_rendering.py:17 | "data_engineering" slugs to itself |
| Slug.SlugOfProjectSuffix | tests/test_template_rendering.py:18 | "data engineering Project" slugs to "data_engineering" |
| Slug.PinnedSlugs | tests/test_template_rendering.py:14-21 | every one of the six pinned project names slugs to "data_engineering" |
| Conftest.DefaultContext | tests/conftest.py:17-34 | definition of the default answers: the thirteen options and their values, with a project name and no explicit slug; OverriddenNameSlug relies on that |
| Conftest.ModifyContext | tests/conftest.py:92-95 | the copy has the keys of both maps; an override's value wins, and every other key has its default's value |
| Conftest.ProjectSlug | tests/conftest.py:119-129 | definition of the lookup: failure without a project name, else the explicit slug, else the chain applied to the name; its properties are the three lemmas below |
| Conftest.ExplicitSlugWins | tests/conftest.py:119-120 | an explicit project_slug answer is the slug as given (by definition) |
| Conftest.DerivedSlug | tests/conftest.py:119-129 | without an explicit slug, the slug is the chain applied to the project name (by definition) |
| Conftest.MissingNameFails | tests/conftest.py:119-122 | a context without project_name fails, even when it has a project_slug (by definition) |
| Conftest.OverriddenNameSlug | tests/conftest.py:92-129 | overriding only the default answers' project name gives that name's slug, because the defaults carry no explicit slug (by definition) |
| Conftest.JoinPath | tests/conftest.py:131 | definition of joining with pathlib's `/`: an absolute child replaces the root, an empty side yields the other, and otherwise a single '/' separates them |
| Conftest.PathName | tests/test_template_rendering.py:35 | definition of a path's name: the characters after its last '/' |
| Conftest.ProjectPath | tests/conftest.py:119-132 | definition of the returned directory: the output directory joined with the slug, or the slug lookup's failure |
| Conftest.PathNameOfAppend | tests/conftest.py:131 | appending a '/'-free component after a separator makes that component the path's name |
| Conftest.JoinedName | tests/conftest.py:131 | joining a non-empty, '/'-free child to any root gives a path named after the child |
| Conftest.OverriddenNameDirectory | tests/conftest.py:119-132 | provided the name's slug is non-empty and contains no '/', overriding the project name yields the output directory joined with that slug, and the directory is named after the slug |
| Conftest.ScenarioDirectoryName | tests/test_template_rendering.py:31-37 | for each pinned name, the project directory found is the output directory joined with "data_engineering", and its name is "data_engineering" |
| Generation.ClassAnswers | tests/test_generation.py:72-86 | definition of the class-level answers; ClassAnswersAreDefaultsButOne relates them to the default fixture |
| Generation.ClassContext | tests/test_generation.py:72-97 | definition of the class context once the slug is added; ClassSlug gives its slug |
| Generation.WithProjectSlug | tests/test_generation.py:88-97 | the key project_slug is set to the chain applied to the project name, overwriting any slug already there; every other answer is kept; the resulting context resolves to that slug |
| Generation.GeneratedProject | tests/test_generation.py:105-108 | definition of the fixture: the template root joined with the class slug; its name is GeneratedProjectName below |
| Generation.ClassSlugAgreesWithFixture | tests/test_generation.py:88-97 | the class body and the conftest helper derive the same slug from the same answers (by definition) |
| Generation.ClassAnswersAreDefaultsButOne | tests/test_generation.py:72-86 | the class answers equal the default fixture's, except that postgresql_version is "16" rather than "17" |
| Generation.ClassSlug | tests/test_generation.py:88-97 | the class slug is "data_engineering" |
| Generation.GeneratedProjectName | tests/test_generation.py:105-108 | the generated project is the template root joined with "data_engineering", and is named "data_engineering" |
| PostGenHook.Selected | hooks/post_gen_project.py:45-54 | definition of the four guards: the open-source files go for "Not open source", the copying file for anything but "GPLv3", the Gitlab file for anything but "Gitlab", the .github tree for anything but "Github" |
| PostGenHook.Plan | hooks/post_gen_project.py:45-54 | a deletion is planned exactly when its guard holds, and none is planned twice |
| PostGenHook.Debug | hooks/post_gen_project.py:43 | debug is on exactly when the answer is "y" or "Y" |
| PostGenHook.DebugIrrelevant | hooks/post_gen_project.py:43 | the debug answer does not change what the hook does (by definition) |
| PostGenHook.AfterUnlink | hooks/post_gen_project.py:25 | definition of one unlink: FileNotFound for a missing path, IsADirectory for a directory, otherwise the path alone is removed |
| PostGenHook.AfterUnlinks | hooks/post_gen_project.py:24-25 | definition of the unlink loop: each name in turn, stopping at the first exception |
| PostGenHook.AfterRmtree | hooks/post_gen_project.py:39 | definition of rmtree: FileNotFound for a missing path, NotADirectory for a file, otherwise the directory and everything below it are removed |
| PostGenHook.AfterRemoval | hooks/post_gen_project.py:22-39 | definition of each remove function in terms of unlink and rmtree |
| PostGenHook.AfterRemovals | hooks/post_gen_project.py:45-54 | definition of deletions in sequence, an exception ending the sequence |
| PostGenHook.AfterHook | hooks/post_gen_project.py:42-54 | definition of the hook: the planned deletions in sequence; its properties are HookClosedForm and the lemmas after it |
| PostGenHook.UnlinksSucceedIff | hooks/post_gen_project.py:24-25 | unlinking distinct names succeeds exactly when each is an existing file |
| PostGenHook.UnlinksTree | hooks/post_gen_project.py:24-25 | successful unlinks remove exactly the names given |
| PostGenHook.UnlinksFrame | hooks/post_gen_project.py:24-25 | unlinks, successful or not, add no path and leave every path not named as it was |
| PostGenHook.UnlinksClosedForm | hooks/post_gen_project.py:24-25 | unlinking distinct names succeeds exactly when each is an existing file, and then removes exactly those names; whatever the outcome, no other path changes |
| PostGenHook.GroupsDisjoint | hooks/post_gen_project.py:22-39 | no path belongs to two of the four deletions |
| PostGenHook.TargetsInGroup | hooks/post_gen_project.py:22-39 | each path a deletion names is one it removes |
| PostGenHook.NotPresentAfterward | hooks/post_gen_project.py:22-39 | after a deletion's paths are gone, that deletion can no longer succeed |
| PostGenHook.PresentUnaffected | hooks/post_gen_project.py:22-39 | removing one deletion's paths does not change whether another deletion can succeed |
| PostGenHook.RemovalClosedForm | hooks/post_gen_project.py:22-39 | a remove function succeeds exactly when its targets exist with the kind it expects, and then removes exactly its paths; whatever the outcome, no other path changes |
| PostGenHook.RemovalsCons | hooks/post_gen_project.py:45-54 | a sequence of deletions runs its first deletion and stops there if that deletion raised |
| PostGenHook.RemovalsClosedForm | hooks/post_gen_project.py:45-54 | a sequence of distinct deletions succeeds exactly when all their targets exist in the starting tree with the kind they expect (files for unlink, the `.github` directory for rmtree), and then leaves exactly the paths none of them concerns |
| PostGenHook.HookClosedForm | hooks/post_gen_project.py:42-54 | the hook succeeds exactly when every selected deletion's targets exist with the kind they expect (files for unlink, the `.github` directory for rmtree); it then leaves the rendered tree minus exactly those paths; whatever the outcome, it adds nothing and changes no other path |
| PostGenHook.OrderIrrelevant | hooks/post_gen_project.py:45-54 | two plans with the same deletions, each without repeats, agree on whether they succeed and, when they do, on the resulting tree; the exception and the partial tree of a failing run can differ |
| PostGenHook.CiRulesFirst | hooks/post_gen_project.py:45-54 | running the CI rules before the license rules agrees with the hook's order on whether the run succeeds and, when it does, on the resulting tree; the exception and the partial tree of a failing run can differ |
| PostGenHook.SecondRunFails | hooks/post_gen_project.py:50-54 | running the hook again on its own successful output always fails |
| PostGenHook.RemovedByIff | hooks/post_gen_project.py:45-54 | a path of one deletion is removed exactly when that deletion's guard holds |
| PostGenHook.DecisionTable | hooks/post_gen_project.py:45-54 | after a successful run, CONTRIBUTORS.txt and LICENSE survive exactly unless the license is "Not open source"; COPYING survives exactly under "GPLv3"; .gitlab-ci.yml exactly under "Gitlab"; each path of the .github tree exactly under "Github" |
| PostGenHook.NotOpenSourceRemovesLicenseFiles | hooks/post_gen_project.py:45-48 | "Not open source" removes CONTRIBUTORS.txt, LICENSE and COPYING |
| PostGenHook.AtMostOneCiArtifact | hooks/post_gen_project.py:50-54 | the Gitlab file and the .github tree never both survive, and the CI answer "None" keeps neither |
| PostGenHook.CiToolScenarios | tests/test_template_rendering.py:136-138 | from a tree with both CI artifacts: "Github" keeps the workflow and drops the Gitlab file, "Gitlab" does the reverse, and "None" drops both |
| PostGenHook.DefaultAnswersPlan | hooks/post_gen_project.py:45-54 | with an MIT license and Github CI, the hook deletes exactly the GPLv3 files and the Gitlab CI file, in that order (by definition) |
| PostGenHook.RenderedTree.Unlink | hooks/post_gen_project.py:25 | the new tree and the exception are those of unlink: FileNotFound for a missing path, IsADirectory for a directory, otherwise the file alone is removed |
| PostGenHook.RenderedTree.UnlinkAll | hooks/post_gen_project.py:24-25 | the loop leaves the tree and the exception that the unlinks in sequence produce, stopping at the first failure |
| PostGenHook.RenderedTree.Rmtree | hooks/post_gen_project.py:39 | FileNotFound for a missing path, NotADirectory for a file, otherwise the directory and everything below it are removed |
| PostGenHook.RenderedTree.RemoveOpenSourceFiles | hooks/post_gen_project.py:22-25 | performs the contributor-list and license deletion |
| PostGenHook.RenderedTree.RemoveGplv3Files | hooks/post_gen_project.py:28-31 | performs the copying-file deletion |
| PostGenHook.RenderedTree.RemoveDotGitlabCiYmlFile | hooks/post_gen_project.py:34-35 | performs the Gitlab CI file deletion |
| PostGenHook.RenderedTree.RemoveDotGithubFolder | hooks/post_gen_project.py:38-39 | performs the .github tree deletion |
| PostGenHook.RenderedTree.RunHook | hooks/post_gen_project.py:42-54 | the guarded deletions leave the tree and the exception of the value-level hook, so every property proved about that hook holds of the run |
| Seqs.SetOf | tests/test_dag_validation.py:74 | definition of Python's `set(list)`: the set of the list's elements; SetSizeIffDistinct relates its size to the list's |
| DagValidation.TagsPass | tests/test_dag_validation.py:72-74 | definition of the tag test: a tag is present and, unless the approved set is empty, the tag set minus the approved set is empty |
| DagValidation.TagsPassIff | tests/test_dag_validation.py:72-74 | the tag check passes exactly when the DAG has a tag and, if any tag is approved, every one of its tags is approved |
| DagValidation.OnlyMaintainanceTag | tests/test_dag_validation.py:9-11 | with the project's approved set, a DAG passes exactly when it has tags and each of them is "maintainance" |
| DagValidation.EmptyApprovedSet | tests/test_dag_validation.py:72-73 | with nothing approved, only the presence of a tag is checked (by definition) |
| DagValidation.ParameterCheck | tests/test_dag_validation.py:59-62 | definition of one task's two assertions in order: no owner fails first, then catch-up not off |
| DagValidation.TaskParametersOk | tests/test_dag_validation.py:58-62 | definition: no task of the DAG fails its parameter assertions |
| DagValidation.TaskParametersOkIff | tests/test_dag_validation.py:58-62 | a DAG passes exactly when every task has an owner and, if it has a task, catch-up is off; a DAG without tasks passes whatever its catch-up setting |
| DagValidation.CheckTaskParameters | tests/test_dag_validation.py:52-62 | no failure exactly when every DAG passes; otherwise the failure is the first failed assertion, in bag and task order, naming its DAG and task |
| DagValidation.DagTaskOk | tests/test_dag_validation.py:85-93 | definition: a task or a task group exists, and every trigger rule is "all_success" |
| DagValidation.CheckDagTask | tests/test_dag_validation.py:80-93 | no failure exactly when the DAG has a task or a task group and every trigger rule is "all_success"; "no tasks" exactly when it has neither; when it has a task or a task group, any failure is a wrong trigger rule naming the first task with a rule other than "all_success" |
| DagValidation.DagIds | tests/test_dag_validation.py:101 | definition: the bag's DAG ids in bag order |
| DagValidation.IdsUniquePass | tests/test_dag_validation.py:101-104 | definition of the uniqueness test: the id list is as long as its set |
| DagValidation.SetSizeIffDistinct | tests/test_dag_validation.py:101-104 | a list's set is no larger than the list, and is as large exactly when no element repeats |
| DagValidation.IdsUniqueIff | tests/test_dag_validation.py:96-104 | the uniqueness check passes exactly when no two DAGs of the bag share an id |
| DagValidation.Canary | tests/test_dag_validation.py:14-24 | definition of the canary DAG, the one DAG the template ships into the bag these tests load (airflow/dags/maintainance/canary.py of the generated project, lines 12-36): id "canary_dag", tag "maintainance", owner "airflow", catch-up off, one task with the default trigger rule |
| DagValidation.CanaryPasses | tests/test_dag_validation.py:52-104 | the canary DAG the template ships (airflow/dags/maintainance/canary.py of the generated project, lines 12-36: owner "airflow", catch-up off, tag "maintainance", one task) passes the tag, parameter, task and uniqueness checks |

## Left out

- Rendering itself: cookiecutter's Jinja templating, its prompts and config files, and every file the template produces are not modelled. The hook receives the rendered tree and the rendered answers as inputs.
- The hook's `SystemRandom` set-up, its ANSI colour strings and its final success message. These are unused or pure output.
- Text.Lower: handles ASCII capitals only. Python's `str.lower` also folds non-ASCII letters.
- Text.Strip: removes ASCII whitespace only. Python's `str.strip` also removes Unicode spaces such as U+0085 and U+00A0.
- Text.ReplaceAll: requires a non-empty pattern. Python defines `replace("", …)` too, but the slug chain never uses it.
- Conftest.JoinPath: joins path strings without pathlib's normalisation ("." components, repeated '/'). In particular pathlib drops a "." child, so for the name "." (whose slug is ".") the real directory is the output directory itself, while Conftest.JoinedName and Conftest.OverriddenNameDirectory describe a directory named ".".
- Generation.WithProjectSlug: requires a project name. The class body would raise KeyError without one, but it only runs on its own answers, which have one.
- The fixtures' temporary config files, `tmp_path`, `cookiecutter_template_path`, the `airflow_env` set-up and the subprocess calls: these are I/O.
- The content assertions of the tests, such as README text, license text, pyproject and docker-compose contents, and the email derivation. They concern rendered file contents, which the model does not hold.
- Airflow's DagBag, its parsing, `check_cycle` and `dag.test` are not part of this model. The DAG checks run over DAG records given as input.
  - The bag is a list. Airflow's `dagbag.dags` is a dict keyed by DAG id, so on a real bag the uniqueness check cannot fail; `DagValidation.IdsUniqueIff` states what the check tests on a list.
  - The canary DAG's trigger rule is Airflow's default, "all_success".
  - `dag.task_group` is taken as a boolean.
- Inconsistencies in the tests are recorded but not reconciled with the model:
  - one test expects the project directory `test_data_engineering`, where the fixtures produce `data_engineering`;
  - one test expects `LICENSE.txt` and `CONTRIBUTING.txt`, where the hook deletes `LICENSE` and `CONTRIBUTORS.txt`.
