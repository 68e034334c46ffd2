/** The rules of the partial-update form: every field is optional and checked only when supplied. */
module UpdateTaskRequest {
  import opened Records
  import opened Validation
  import StoreTaskRequest

  const TituloRules: seq<Rule> := [Sometimes, IsString, Max(255)]
  const DescricaoRules: seq<Rule> := [Sometimes, Nullable, IsString]
  const StatusRules: seq<Rule> := [Sometimes, IsString, In(TaskStatusSlugs)]
  const ProjectIdRules: seq<Rule> := [Sometimes, ExistsProjectId]

  const Rules: map<string, seq<Rule>> := map[
    "titulo" := TituloRules,
    "descricao" := DescricaoRules,
    "status" := StatusRules,
    "project_id" := ProjectIdRules]

  /** A supplied title is a string of at most 255 characters (a blank one is not checked). */
  predicate TituloOk(p: Payload)
  {
    "titulo" !in p || (p["titulo"].Str? && (IsBlank(p["titulo"].s) || |p["titulo"].s| <= 255))
  }

  /** A supplied description is null or a string. */
  predicate DescricaoOk(p: Payload)
  {
    "descricao" !in p || p["descricao"].Null? || p["descricao"].Str?
  }

  /** A supplied status is a string, blank or one of the three slugs; null is refused. */
  predicate StatusOk(p: Payload)
  {
    "status" !in p || (p["status"].Str? && (IsBlank(p["status"].s) || p["status"].s in TaskStatusSlugs))
  }

  /** A supplied project id names an existing project (a blank one is not checked). */
  predicate ProjectIdOk(p: Payload, projectIds: set<int>)
  {
    "project_id" !in p || BlankValue(p["project_id"]) ||
    (p["project_id"].Int? && p["project_id"].i in projectIds)
  }

  lemma {:induction false} TituloRule(p: Payload, ctx: Context)
    ensures FieldFailures(TituloRules, "titulo", p, ctx) == [] <==> TituloOk(p)
  {
    var rs := TituloRules;
    assert (forall j :: 0 <= j < |rs| ==> !FailsAt(rs, j, "titulo", p, ctx)) <==>
      (!FailsAt(rs, 0, "titulo", p, ctx) && !FailsAt(rs, 1, "titulo", p, ctx) && !FailsAt(rs, 2, "titulo", p, ctx));
  }

  lemma {:induction false} DescricaoRule(p: Payload, ctx: Context)
    ensures FieldFailures(DescricaoRules, "descricao", p, ctx) == [] <==> DescricaoOk(p)
  {
    var rs := DescricaoRules;
    assert (forall j :: 0 <= j < |rs| ==> !FailsAt(rs, j, "descricao", p, ctx)) <==>
      (!FailsAt(rs, 0, "descricao", p, ctx) && !FailsAt(rs, 1, "descricao", p, ctx) && !FailsAt(rs, 2, "descricao", p, ctx));
  }

  lemma {:induction false} StatusRule(p: Payload, ctx: Context)
    ensures FieldFailures(StatusRules, "status", p, ctx) == [] <==> StatusOk(p)
  {
    var rs := StatusRules;
    assert (forall j :: 0 <= j < |rs| ==> !FailsAt(rs, j, "status", p, ctx)) <==>
      (!FailsAt(rs, 0, "status", p, ctx) && !FailsAt(rs, 1, "status", p, ctx) && !FailsAt(rs, 2, "status", p, ctx));
  }

  lemma {:induction false} ProjectIdRule(p: Payload, ctx: Context)
    ensures FieldFailures(ProjectIdRules, "project_id", p, ctx) == [] <==> ProjectIdOk(p, ctx.projectIds)
  {
    var rs := ProjectIdRules;
    assert (forall j :: 0 <= j < |rs| ==> !FailsAt(rs, j, "project_id", p, ctx)) <==>
      (!FailsAt(rs, 0, "project_id", p, ctx) && !FailsAt(rs, 1, "project_id", p, ctx));
  }

  /** The form accepts, with an empty error bag, exactly the payloads on which all four field rules hold. */
  lemma {:induction false} ValidIff(p: Payload, ctx: Context)
    ensures Passes(Rules, p, ctx) <==>
      TituloOk(p) && DescricaoOk(p) && StatusOk(p) && ProjectIdOk(p, ctx.projectIds)
    ensures Errors(Rules, p, ctx) == map[] <==>
      TituloOk(p) && DescricaoOk(p) && StatusOk(p) && ProjectIdOk(p, ctx.projectIds)
  {
    TituloRule(p, ctx);
    DescricaoRule(p, ctx);
    StatusRule(p, ctx);
    ProjectIdRule(p, ctx);
    PassesFourFields("titulo", TituloRules, "descricao", DescricaoRules,
      "status", StatusRules, "project_id", ProjectIdRules, p, ctx);
  }

  /** A field the payload leaves out never causes a rejection. */
  lemma {:induction false} AbsentFieldNeverFails(p: Payload, ctx: Context, field: string)
    requires field in Rules && field !in p
    ensures FieldFailures(Rules[field], field, p, ctx) == []
  {
    if field == "titulo" {
      TituloRule(p, ctx);
    } else if field == "descricao" {
      DescricaoRule(p, ctx);
    } else if field == "status" {
      StatusRule(p, ctx);
    } else {
      assert field == "project_id";
      ProjectIdRule(p, ctx);
    }
  }

  /** The empty payload is a valid update. */
  lemma {:induction false} EmptyPayloadValid(ctx: Context)
    ensures Passes(Rules, map[], ctx)
  {
    ValidIff(map[], ctx);
  }

  /** A null status passes the create form's status rule but fails the update form's. */
  lemma {:induction false} NullStatusOnlyOnCreate(p: Payload, ctx: Context)
    requires "status" in p && p["status"] == Null
    ensures FieldFailures(StoreTaskRequest.StatusRules, "status", p, ctx) == []
    ensures FieldFailures(StatusRules, "status", p, ctx) != []
  {
    StoreTaskRequest.StatusRule(p, ctx);
    StatusRule(p, ctx);
  }
}
