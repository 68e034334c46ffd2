/** The rules of the create-project form: a required, unique name of at most 255 characters. */
module StoreProjectRequest {
  import opened Seqs
  import opened Records
  import opened Validation

  const NameRules: seq<Rule> := [Required, IsString, Max(255), UniqueProjectName]

  const Rules: map<string, seq<Rule>> := map["name" := NameRules]

  const Messages: MessageTable := map[
    ("name", "required") := "O nome do projeto é obrigatório.",
    ("name", "unique") := "Já existe um projeto com este nome.",
    ("name", "max") := "O nome deve ter no máximo 255 caracteres."]

  /** The names already in the projects table. */
  function NamesOf(projects: seq<Project>): set<string>
  {
    set q | q in projects :: q.name
  }

  /** A name is given, is a non-blank string of at most 255 characters and is not taken. */
  predicate NameOk(p: Payload, names: set<string>)
  {
    "name" in p && p["name"].Str? && !IsBlank(p["name"].s) && |p["name"].s| <= 255 &&
    p["name"].s !in names
  }

  /** The form accepts exactly the payloads whose name satisfies all four rules. */
  lemma {:induction false} ValidIff(p: Payload, ctx: Context)
    ensures Passes(Rules, p, ctx) <==> NameOk(p, ctx.projectNames)
    ensures Errors(Rules, p, ctx) == map[] <==> NameOk(p, ctx.projectNames)
  {
    var rs := NameRules;
    assert (forall j :: 0 <= j < |rs| ==> !FailsAt(rs, j, "name", p, ctx)) <==>
      (!FailsAt(rs, 0, "name", p, ctx) && !FailsAt(rs, 1, "name", p, ctx) &&
       !FailsAt(rs, 2, "name", p, ctx) && !FailsAt(rs, 3, "name", p, ctx));
    assert Rules.Keys == {"name"};
  }

  /** A missing name is reported with the form's "required" message only. */
  lemma MissingName(p: Payload, ctx: Context)
    requires "name" !in p
    ensures FieldMessages(Rules, Messages, p, ctx, "name") == [Custom("O nome do projeto é obrigatório.")]
  {
    assert FieldFailures(NameRules, "name", p, ctx) == [Required];
  }

  /** A new name longer than 255 characters is reported with the max-length message only. */
  lemma TooLongName(p: Payload, ctx: Context)
    requires "name" in p && p["name"].Str? && !IsBlank(p["name"].s) && |p["name"].s| > 255
    ensures FieldMessages(Rules, Messages, p, ctx, "name") == [Custom("O nome deve ter no máximo 255 caracteres.")]
  {
    var rs := NameRules;
    assert !FailsAt(rs, 0, "name", p, ctx) && !FailsAt(rs, 1, "name", p, ctx);
    assert FailsAt(rs, 2, "name", p, ctx) && !FailsAt(rs, 3, "name", p, ctx);
    assert FailuresFrom(rs, 3, "name", p, ctx) == [];
    assert FailuresFrom(rs, 0, "name", p, ctx) == [Max(255)];
  }

  /** A well-formed name that is already taken is reported with the uniqueness message only. */
  lemma DuplicateName(p: Payload, ctx: Context)
    requires "name" in p && p["name"].Str? && !IsBlank(p["name"].s) && |p["name"].s| <= 255
    requires p["name"].s in ctx.projectNames
    ensures FieldMessages(Rules, Messages, p, ctx, "name") == [Custom("Já existe um projeto com este nome.")]
  {
    OnlyUniqueFails(p, ctx);
    assert MessageFor(Messages, "name", UniqueProjectName) == Custom("Já existe um projeto com este nome.");
  }

  /** A well-formed taken name fails the uniqueness rule and no other. */
  lemma OnlyUniqueFails(p: Payload, ctx: Context)
    requires "name" in p && p["name"].Str? && !IsBlank(p["name"].s) && |p["name"].s| <= 255
    requires p["name"].s in ctx.projectNames
    ensures FieldFailures(NameRules, "name", p, ctx) == [UniqueProjectName]
  {
    var rs := NameRules;
    assert !FailsAt(rs, 0, "name", p, ctx) && !FailsAt(rs, 1, "name", p, ctx);
    assert !FailsAt(rs, 2, "name", p, ctx) && FailsAt(rs, 3, "name", p, ctx);
    assert FailuresFrom(rs, 3, "name", p, ctx) == [UniqueProjectName];
  }

  /** Storing a name the form accepted keeps project names pairwise distinct. */
  lemma {:induction false} AcceptedNameStaysUnique(projects: seq<Project>, ids: set<int>, p: Payload, id: nat, now: nat)
    requires DistinctBy(projects, ProjectNameKey)
    requires Passes(Rules, p, Context(ids, NamesOf(projects)))
    ensures "name" in p && p["name"].Str?
    ensures DistinctBy(projects + [Project(id, p["name"].s, now)], ProjectNameKey)
  {
    ValidIff(p, Context(ids, NamesOf(projects)));
    var added := projects + [Project(id, p["name"].s, now)];
    forall i, j | 0 <= i < j < |added| ensures ProjectNameKey(added[i]) != ProjectNameKey(added[j]) {
      if j == |projects| {
        assert added[i] in projects;
      }
    }
  }
}
