/** The rules of the create-task form: title, optional description and status, owning project. */
module StoreTaskRequest {
  import opened Wrappers
  import opened Records
  import opened Validation

  const TituloRules: seq<Rule> := [Required, IsString, Max(255)]
  const DescricaoRules: seq<Rule> := [Nullable, IsString]
  const StatusRules: seq<Rule> := [Nullable, IsString, In(TaskStatusSlugs)]
  const ProjectIdRules: seq<Rule> := [Required, ExistsProjectId]

  const Rules: map<string, seq<Rule>> := map[
    "titulo" := TituloRules,
    "descricao" := DescricaoRules,
    "status" := StatusRules,
    "project_id" := ProjectIdRules]

  const Messages: MessageTable := map[
    ("titulo", "required") := "O título é obrigatório.",
    ("project_id", "required") := "O projeto é obrigatório.",
    ("project_id", "exists") := "O projeto informado não existe."]

  /** A title is given, is a string, is not blank and has at most 255 characters. */
  predicate TituloOk(p: Payload)
  {
    "titulo" in p && p["titulo"].Str? && !IsBlank(p["titulo"].s) && |p["titulo"].s| <= 255
  }

  /** A description is absent, null or a string. */
  predicate DescricaoOk(p: Payload)
  {
    "descricao" !in p || p["descricao"].Null? || p["descricao"].Str?
  }

  /** A status is absent, null, blank or one of the three slugs. */
  predicate StatusOk(p: Payload)
  {
    "status" !in p || p["status"].Null? ||
    (p["status"].Str? && (IsBlank(p["status"].s) || p["status"].s in TaskStatusSlugs))
  }

  /** A project id is given and names an existing project. */
  predicate ProjectIdOk(p: Payload, projectIds: set<int>)
  {
    "project_id" in p && p["project_id"].Int? && p["project_id"].i in projectIds
  }

  lemma {:induction false} TituloRule(p: Payload, ctx: Context)
    ensures FieldFailures(TituloRules, "titulo", p, ctx) == [] <==> TituloOk(p)
  {
    var rs := TituloRules;
    assert (forall j :: 0 <= j < |rs| ==> !FailsAt(rs, j, "titulo", p, ctx)) <==>
      (!FailsAt(rs, 0, "titulo", p, ctx) && !FailsAt(rs, 1, "titulo", p, ctx) && !FailsAt(rs, 2, "titulo", p, ctx));
  }

  lemma {:induction false} DescricaoRule(p: Payload, ctx: Context)
    ensures FieldFailures(DescricaoRules, "descricao", p, ctx) == [] <==> DescricaoOk(p)
  {
    var rs := DescricaoRules;
    assert (forall j :: 0 <= j < |rs| ==> !FailsAt(rs, j, "descricao", p, ctx)) <==>
      (!FailsAt(rs, 0, "descricao", p, ctx) && !FailsAt(rs, 1, "descricao", p, ctx));
  }

  lemma {:induction false} StatusRule(p: Payload, ctx: Context)
    ensures FieldFailures(StatusRules, "status", p, ctx) == [] <==> StatusOk(p)
  {
    var rs := StatusRules;
    assert (forall j :: 0 <= j < |rs| ==> !FailsAt(rs, j, "status", p, ctx)) <==>
      (!FailsAt(rs, 0, "status", p, ctx) && !FailsAt(rs, 1, "status", p, ctx) && !FailsAt(rs, 2, "status", p, ctx));
  }

  lemma {:induction false} ProjectIdRule(p: Payload, ctx: Context)
    ensures FieldFailures(ProjectIdRules, "project_id", p, ctx) == [] <==> ProjectIdOk(p, ctx.projectIds)
  {
    var rs := ProjectIdRules;
    assert (forall j :: 0 <= j < |rs| ==> !FailsAt(rs, j, "project_id", p, ctx)) <==>
      (!FailsAt(rs, 0, "project_id", p, ctx) && !FailsAt(rs, 1, "project_id", p, ctx));
  }

  /** The form accepts, with an empty error bag, exactly the payloads on which all four field rules hold. */
  lemma {:induction false} ValidIff(p: Payload, ctx: Context)
    ensures Passes(Rules, p, ctx) <==>
      TituloOk(p) && DescricaoOk(p) && StatusOk(p) && ProjectIdOk(p, ctx.projectIds)
    ensures Errors(Rules, p, ctx) == map[] <==>
      TituloOk(p) && DescricaoOk(p) && StatusOk(p) && ProjectIdOk(p, ctx.projectIds)
  {
    TituloRule(p, ctx);
    DescricaoRule(p, ctx);
    StatusRule(p, ctx);
    ProjectIdRule(p, ctx);
    PassesFourFields("titulo", TituloRules, "descricao", DescricaoRules,
      "status", StatusRules, "project_id", ProjectIdRules, p, ctx);
  }

  /** A missing title is reported with the form's own "required" message only. */
  lemma MissingTitulo(p: Payload, ctx: Context)
    requires "titulo" !in p
    ensures FieldMessages(Rules, Messages, p, ctx, "titulo") == [Custom("O título é obrigatório.")]
  {
    assert FieldFailures(TituloRules, "titulo", p, ctx) == [Required];
  }

  /** A missing project id is reported with the form's own "required" message only. */
  lemma MissingProjectId(p: Payload, ctx: Context)
    requires "project_id" !in p
    ensures FieldMessages(Rules, Messages, p, ctx, "project_id") == [Custom("O projeto é obrigatório.")]
  {
    assert FieldFailures(ProjectIdRules, "project_id", p, ctx) == [Required];
  }

  /** An id that names no project is reported with the form's own "exists" message only. */
  lemma UnknownProjectId(p: Payload, ctx: Context)
    requires "project_id" in p && p["project_id"].Int? && p["project_id"].i !in ctx.projectIds
    ensures FieldMessages(Rules, Messages, p, ctx, "project_id") == [Custom("O projeto informado não existe.")]
  {
    assert FieldFailures(ProjectIdRules, "project_id", p, ctx) == [ExistsProjectId];
  }
}
