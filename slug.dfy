/**
 * Project-slug derivation used by the test helpers: the name is lower-cased and
 * stripped, every " project" in it is deleted, and then spaces, colons, hyphens and
 * exclamation marks, in that order, are each replaced by an underscore.
 */
module Slug {
  import opened Text

  /** The four characters the chain turns into underscores. */
  predicate IsSeparator(c: char) {
    c == ' ' || c == ':' || c == '-' || c == '!'
  }

  /** What the last four replacements do to one character. */
  function Underscored(c: char): char {
    if IsSeparator(c) then '_' else c
  }

  /** The qualifier the chain deletes wherever it occurs (not only at the end). */
  const ProjectQualifier: string := " project"

  /** The last four `replace` calls, in the order the chain applies them. */
  function ReplaceSeparators(s: string): string {
    ReplaceAll(ReplaceAll(ReplaceAll(ReplaceAll(s, " ", "_"), ":", "_"), "-", "_"), "!", "_")
  }

  /** The whole chain: lower-case, strip, delete every " project", replace separators. */
  function Slugify(name: string): string {
    ReplaceSeparators(ReplaceAll(Strip(Lower(name)), ProjectQualifier, ""))
  }

  /** The four replacements together map each separator to '_' and keep every other
      character, position by position. */
  lemma SeparatorsPointwise(s: string)
    ensures |ReplaceSeparators(s)| == |s|
    ensures forall i :: 0 <= i < |s| ==> ReplaceSeparators(s)[i] == Underscored(s[i])
  {
    var s1 := ReplaceAll(s, " ", "_");
    ReplaceCharAt(s, ' ', '_');
    var s2 := ReplaceAll(s1, ":", "_");
    ReplaceCharAt(s1, ':', '_');
    var s3 := ReplaceAll(s2, "-", "_");
    ReplaceCharAt(s2, '-', '_');
    ReplaceCharAt(s3, '!', '_');
  }

  /** No slug contains a space, a colon, a hyphen or an exclamation mark. */
  lemma SlugHasNoSeparators(name: string)
    ensures forall i :: 0 <= i < |Slugify(name)| ==> !IsSeparator(Slugify(name)[i])
  {
    SeparatorsPointwise(ReplaceAll(Strip(Lower(name)), ProjectQualifier, ""));
  }

  /** No slug contains an ASCII capital letter: lower-casing comes first and nothing
      after it introduces one. */
  lemma SlugHasNoCapitals(name: string)
    ensures forall i :: 0 <= i < |Slugify(name)| ==> !IsUpper(Slugify(name)[i])
  {
    var lowered := Lower(name);
    var stripped := Strip(lowered);
    forall i | 0 <= i < |stripped| ensures !IsUpper(stripped[i]) {
      assert stripped[i] == lowered[StripOffset(lowered) + i];
    }
    ReplaceKeepsLower(stripped, ProjectQualifier, "");
    SeparatorsPointwise(ReplaceAll(stripped, ProjectQualifier, ""));
  }

  /** When the lower-cased, stripped name has no " project" in it, the slug is that text
      with each separator replaced by '_', character for character. */
  lemma SlugPointwise(name: string)
    requires forall i :: !OccursAt(Strip(Lower(name)), ProjectQualifier, i)
    ensures |Slugify(name)| == |Strip(Lower(name))|
    ensures forall i :: 0 <= i < |Slugify(name)| ==>
              Slugify(name)[i] == Underscored(Strip(Lower(name))[i])
  {
    var t := Strip(Lower(name));
    ReplaceNone(t, ProjectQualifier, "");
    SeparatorsPointwise(t);
  }

  /** A name without surrounding whitespace and without " project" (in any letter case)
      keeps its length: every later replacement is one character for one. */
  lemma SlugKeepsLength(name: string)
    requires name == [] || (!IsSpace(name[0]) && !IsSpace(name[|name| - 1]))
    requires forall i :: !OccursAt(Lower(name), ProjectQualifier, i)
    ensures |Slugify(name)| == |name|
  {
    StripUnchanged(Lower(name));
    SlugPointwise(name);
  }

  /** A name made only of small letters, digits and underscores is its own slug. */
  lemma SlugFixedPoint(name: string)
    requires forall i :: 0 <= i < |name| ==>
               ('a' <= name[i] <= 'z') || ('0' <= name[i] <= '9') || name[i] == '_'
    ensures Slugify(name) == name
  {
    assert Lower(name) == name;
    StripUnchanged(name);
    ReplaceAbsent(name, ProjectQualifier, "");
    SeparatorsPointwise(name);
  }

  /** A name with no capital and no whitespace: the slug only replaces separators. */
  lemma SlugOfPlainName(name: string, expected: string)
    requires forall i :: 0 <= i < |name| ==> !IsUpper(name[i]) && !IsSpace(name[i])
    requires |expected| == |name|
    requires forall i :: 0 <= i < |name| ==> expected[i] == Underscored(name[i])
    ensures Slugify(name) == expected
  {
    assert Lower(name) == name;
    StripUnchanged(name);
    ReplaceAbsent(name, ProjectQualifier, "");
    SeparatorsPointwise(name);
  }

  /** A name without surrounding whitespace and without " project" (in any letter case):
      the slug is the lower-cased name with separators replaced. */
  lemma SlugOfUnqualifiedName(name: string, expected: string)
    requires name == [] || (!IsSpace(name[0]) && !IsSpace(name[|name| - 1]))
    requires forall i :: !OccursAt(Lower(name), ProjectQualifier, i)
    requires |expected| == |name|
    requires forall i :: 0 <= i < |name| ==> expected[i] == Underscored(Lower(name)[i])
    ensures Slugify(name) == expected
  {
    StripUnchanged(Lower(name));
    SlugPointwise(name);
  }

  /** A name whose lower-cased form is `stem + " project"`, with `stem` non-empty, not
      starting with whitespace and holding no other start of " project": the qualifier
      disappears. (With an empty stem, `strip` would first remove the qualifier's space.) */
  lemma SlugOfQualifiedName(name: string, stem: string, expected: string)
    requires Lower(name) == stem + ProjectQualifier
    requires |stem| > 0 && !IsSpace(stem[0])
    requires forall i :: 0 <= i < |stem| ==> !OccursAt(stem + ProjectQualifier, ProjectQualifier, i)
    requires |expected| == |stem|
    requires forall i :: 0 <= i < |stem| ==> expected[i] == Underscored(stem[i])
    ensures Slugify(name) == expected
  {
    var lowered := stem + ProjectQualifier;
    assert lowered[0] == stem[0] && lowered[|lowered| - 1] == 't';
    StripUnchanged(lowered);
    ReplaceAfterPrefix(stem, ProjectQualifier, ProjectQualifier, "");
    assert ReplaceAll(ProjectQualifier, ProjectQualifier, "") == "";
    assert stem + "" == stem;
    SeparatorsPointwise(stem);
  }

  // The six names the template-rendering test pins, all mapped to "data_engineering".
  //
  // These lemmas, and the small helpers beside them, take their literal as a parameter
  // fixed by a requires instead of writing it into the goal. With the literal in the goal
  // the verifier evaluates the whole chain on it at once and runs out of resources; as a
  // parameter, each step is reached through the general lemmas above.

  /** The three pinned names that differ from the slug only in their separator. */
  lemma SlugOfSeparatedName(name: string)
    requires name == "data-engineering" || name == "data:engineering" || name == "data!engineering"
    ensures Slugify(name) == "data_engineering"
  {
    SlugOfPlainName(name, "data_engineering");
  }

  lemma SlugOfTitleCase(name: string)
    requires name == "Data Engineering"
    ensures Slugify(name) == "data_engineering"
  {
    LowerOfTitleCase(name);
    NoQualifierIn(Lower(name));
    SlugOfUnqualifiedName(name, "data_engineering");
  }

  lemma LowerOfTitleCase(name: string)
    requires name == "Data Engineering"
    ensures Lower(name) == "data engineering"
  {
    assert Lower(name)[0] == 'd' && Lower(name)[5] == 'e';
  }

  lemma SlugOfSnakeCase(name: string)
    requires name == "data_engineering"
    ensures Slugify(name) == "data_engineering"
  {
    SlugFixedPoint(name);
  }

  /** Lower-casing precedes the deletion, so the capitalised qualifier is deleted too. */
  lemma SlugOfProjectSuffix(name: string)
    requires name == "data engineering Project"
    ensures Slugify(name) == "data_engineering"
  {
    var stem := "data engineering";
    LowerOfProjectSuffix(name, stem);
    OnlyFinalQualifier(stem);
    SlugOfQualifiedName(name, stem, "data_engineering");
  }

  lemma LowerOfProjectSuffix(name: string, stem: string)
    requires name == "data engineering Project" && stem == "data engineering"
    ensures Lower(name) == stem + ProjectQualifier
  {
    assert Lower(name)[17] == 'p';
  }

  lemma OnlyFinalQualifier(stem: string)
    requires stem == "data engineering"
    ensures forall i :: 0 <= i < |stem| ==> !OccursAt(stem + ProjectQualifier, ProjectQualifier, i)
  {
    forall i | 0 <= i < |stem| ensures !OccursAt(stem + ProjectQualifier, ProjectQualifier, i) {
      QualifierStart(stem + ProjectQualifier, i);
    }
  }

  /** The project names the template-rendering test pins. */
  const PinnedNames: seq<string> := ["data-engineering", "Data Engineering", "data_engineering",
                                     "data engineering Project", "data:engineering", "data!engineering"]

  /** Every pinned name has the slug "data_engineering". */
  lemma PinnedSlugs(name: string)
    requires name in PinnedNames
    ensures Slugify(name) == "data_engineering"
  {
    if name == "Data Engineering" { SlugOfTitleCase(name); }
    else if name == "data_engineering" { SlugOfSnakeCase(name); }
    else if name == "data engineering Project" { SlugOfProjectSuffix(name); }
    else { SlugOfSeparatedName(name); }
  }

  /** An occurrence of " project" starts with a space followed by 'p'. */
  lemma QualifierStart(s: string, i: int)
    ensures OccursAt(s, ProjectQualifier, i) ==> s[i] == ' ' && s[i + 1] == 'p'
  {
    if OccursAt(s, ProjectQualifier, i) {
      assert s[i..i + 8][0] == s[i] && s[i..i + 8][1] == s[i + 1];
    }
  }

  /** "data engineering" holds no " project" (literal as a parameter, as above). */
  lemma NoQualifierIn(s: string)
    requires s == "data engineering"
    ensures forall i :: !OccursAt(s, ProjectQualifier, i)
  {
    forall i ensures !OccursAt(s, ProjectQualifier, i) {
      QualifierStart(s, i);
    }
  }
  /** A slug that neither starts nor ends with whitespace is its own slug: it has no
      capital, no space (so no " project") and no separator left to replace. */
  lemma SlugIdempotent(name: string)
    requires var s := Slugify(name); s == [] || (!IsSpace(s[0]) && !IsSpace(s[|s| - 1]))
    ensures Slugify(Slugify(name)) == Slugify(name)
  {
    var s := Slugify(name);
    SlugHasNoCapitals(name);
    SlugHasNoSeparators(name);
    assert Lower(s) == s;
    StripUnchanged(s);
    ReplaceAbsent(s, ProjectQualifier, "");
    SeparatorsPointwise(s);
  }

  /** A letter followed by one whitespace character slugs to the letter alone. */
  lemma SlugOfTrailingSpace(c: char, w: char)
    requires 'a' <= c <= 'z' && IsSpace(w)
    ensures Slugify([c, w]) == [c]
  {
    var s := [c, w];
    StripOfTrailingSpace(c, w);
    var t := Strip(Lower(s));
    ReplaceAbsent(t, ProjectQualifier, "");
    SeparatorsPointwise(t);
    assert ReplaceSeparators(t) == t;
  }

  lemma StripOfTrailingSpace(c: char, w: char)
    requires 'a' <= c <= 'z' && IsSpace(w)
    ensures Strip(Lower([c, w])) == [c]
  {
    var s := [c, w];
    assert Lower(s) == s;
    assert s[1..] == [w];
    assert StripOffset(s) == 0;
    assert s[..1] == [c];
    assert StripEnd(s) == 1;
    assert Strip(s) == [c];
  }

  /** The condition is needed: deleting " project" can leave whitespace at the end, which
      only a second pass strips. */
  lemma SlugNotIdempotent(name: string, once: string)
    requires name == "a\t project" && once == "a\t"
    ensures Slugify(name) == once
    ensures Slugify(once) == "a"
  {
    assert Lower(name) == once + ProjectQualifier;
    forall i | 0 <= i < |once| ensures !OccursAt(once + ProjectQualifier, ProjectQualifier, i) {
      QualifierStart(once + ProjectQualifier, i);
    }
    SlugOfQualifiedName(name, once, once);
    SlugOfTrailingSpace('a', '\t');
  }
}
