/**
 * The part of Laravel's validator that the three form requests use. A field's rules run
 * in order; a failed `required` stops the field; `sometimes` skips an absent field;
 * `nullable` skips a null value; a blank string (empty after PHP's `trim`) is only seen
 * by `required`; `exists` and `unique` run only while the field has no failure yet. A
 * payload passes when no field of the rule table has a failure.
 */
module Validation {
  import opened Wrappers
  import opened Records

  datatype Rule =
    | Sometimes
    | Required
    | Nullable
    | IsString
    | Max(limit: nat)
    | In(options: seq<string>)
    | ExistsProjectId    // exists:projects,id
    | UniqueProjectName  // unique:projects,name

  /** What the database-backed rules look at: the ids and the names in the projects table. */
  datatype Context = Context(projectIds: set<int>, projectNames: set<string>)

  /** The characters PHP's `trim` strips. */
  predicate Trimmed(c: char)
  {
    c == ' ' || c == '\t' || c == '\n' || c == '\r' || c == '\0' || c == '\U{0B}'
  }

  predicate IsBlank(s: string)
  {
    forall i :: 0 <= i < |s| ==> Trimmed(s[i])
  }

  predicate BlankValue(v: Value)
  {
    v.Str? && IsBlank(v.s)
  }

  /** Rules that run even on an absent or blank field. */
  predicate Implicit(r: Rule)
  {
    r.Required?
  }

  /** The field's value, null when absent. */
  function ValueOf(p: Payload, field: string): Value
  {
    if field in p then p[field] else Null
  }

  /** Whether the rule accepts the value. `max` counts characters of a string; other PHP
      scalars are at most 20 characters long once cast. `in` compares the string form. */
  predicate RulePasses(r: Rule, v: Value, ctx: Context)
  {
    match r
    case Sometimes => true
    case Nullable => true
    case Required => !v.Null? && !BlankValue(v)
    case IsString => v.Str?
    case Max(n) => !v.Str? || |v.s| <= n
    case In(options) => v.Str? && v.s in options
    case ExistsProjectId => v.Int? && v.i in ctx.projectIds
    case UniqueProjectName => !v.Str? || v.s !in ctx.projectNames
  }

  /** Whether the validator runs rule `r` on the field at all, given the field's whole rule list. */
  predicate Validatable(r: Rule, rules: seq<Rule>, field: string, p: Payload)
  {
    var present := field in p;
    && (if present && BlankValue(p[field]) then Implicit(r) else present || Implicit(r))
    && (Sometimes in rules ==> present)
    && (Implicit(r) || Nullable !in rules || !(present && p[field].Null?))
  }

  /** The database-backed rules, which the validator skips once the field already has a failure. */
  predicate LooksUpDatabase(r: Rule)
  {
    r.ExistsProjectId? || r.UniqueProjectName?
  }

  /** Rule `rules[j]` applies to the field and its check rejects the value. */
  predicate Rejects(rules: seq<Rule>, j: nat, field: string, p: Payload, ctx: Context)
    requires j < |rules|
  {
    Validatable(rules[j], rules, field, p) && !RulePasses(rules[j], ValueOf(p, field), ctx)
  }

  /**
   * Rule `rules[j]` runs on the field and rejects it: a database rule runs only when no
   * earlier rule of the field has failed (the first earlier rejection is itself a failure).
   */
  predicate FailsAt(rules: seq<Rule>, j: nat, field: string, p: Payload, ctx: Context)
    requires j < |rules|
  {
    && Rejects(rules, j, field, p, ctx)
    && (LooksUpDatabase(rules[j]) ==> forall k :: 0 <= k < j ==> !Rejects(rules, k, field, p, ctx))
  }

  /** The failed rules of the field from position `i` on, in rule order. */
  function FailuresFrom(rules: seq<Rule>, i: nat, field: string, p: Payload, ctx: Context): (r: seq<Rule>)
    requires i <= |rules|
    ensures r == [] <==> forall j :: i <= j < |rules| ==> !FailsAt(rules, j, field, p, ctx)
    ensures r != [] ==>
      exists j :: i <= j < |rules| && FailsAt(rules, j, field, p, ctx) && r[0] == rules[j] &&
        (forall k :: i <= k < j ==> !FailsAt(rules, k, field, p, ctx))
    ensures forall k :: 0 <= k < |r| ==> r[k] in rules[i..] && !RulePasses(r[k], ValueOf(p, field), ctx)
    decreases |rules| - i
  {
    if i == |rules| then []
    else if FailsAt(rules, i, field, p, ctx) then
      if Implicit(rules[i]) then [rules[i]] else [rules[i]] + FailuresFrom(rules, i + 1, field, p, ctx)
    else FailuresFrom(rules, i + 1, field, p, ctx)
  }

  function FieldFailures(rules: seq<Rule>, field: string, p: Payload, ctx: Context): seq<Rule>
  {
    FailuresFrom(rules, 0, field, p, ctx)
  }

  /** The payload satisfies every field of the rule table. */
  predicate Passes(table: map<string, seq<Rule>>, p: Payload, ctx: Context)
  {
    forall f :: f in table ==> FieldFailures(table[f], f, p, ctx) == []
  }

  /** A four-field table passes exactly when each of its fields has no failure. */
  lemma {:induction false} PassesFourFields(
    f1: string, r1: seq<Rule>, f2: string, r2: seq<Rule>,
    f3: string, r3: seq<Rule>, f4: string, r4: seq<Rule>, p: Payload, ctx: Context)
    requires f1 != f2 && f1 != f3 && f1 != f4 && f2 != f3 && f2 != f4 && f3 != f4
    ensures Passes(map[f1 := r1, f2 := r2, f3 := r3, f4 := r4], p, ctx) <==>
      FieldFailures(r1, f1, p, ctx) == [] && FieldFailures(r2, f2, p, ctx) == [] &&
      FieldFailures(r3, f3, p, ctx) == [] && FieldFailures(r4, f4, p, ctx) == []
  {
    var table := map[f1 := r1, f2 := r2, f3 := r3, f4 := r4];
    assert table.Keys == {f1, f2, f3, f4};
    assert table[f1] == r1 && table[f2] == r2 && table[f3] == r3 && table[f4] == r4;
  }

  /** The validator's error bag: each failing field with its failed rules. */
  function Errors(table: map<string, seq<Rule>>, p: Payload, ctx: Context): (errs: map<string, seq<Rule>>)
    ensures forall f :: f in errs <==> f in table && FieldFailures(table[f], f, p, ctx) != []
    ensures errs == map[] <==> Passes(table, p, ctx)
  {
    var errs := map f | f in table && FieldFailures(table[f], f, p, ctx) != [] :: FieldFailures(table[f], f, p, ctx);
    assert Passes(table, p, ctx) ==> errs.Keys == {};
    errs
  }

  function RuleName(r: Rule): string
  {
    match r
    case Sometimes => "sometimes"
    case Required => "required"
    case Nullable => "nullable"
    case IsString => "string"
    case Max(_) => "max"
    case In(_) => "in"
    case ExistsProjectId => "exists"
    case UniqueProjectName => "unique"
  }

  /** A request's own message, or the framework's default line `validation.<rule>`. */
  datatype Message = Custom(text: string) | Translated(rule: string)

  /** A request's custom messages, keyed by `field.rule`, here held as the pair (field, rule). */
  type MessageTable = map<(string, string), string>

  function MessageFor(custom: MessageTable, field: string, r: Rule): Message
  {
    var key := (field, RuleName(r));
    if key in custom then Custom(custom[key]) else Translated(RuleName(r))
  }

  /** The messages reported for the field, one per failed rule, in rule order. */
  function FieldMessages(table: map<string, seq<Rule>>, custom: MessageTable, p: Payload, ctx: Context, field: string): (ms: seq<Message>)
    ensures |ms| == if field in table then |FieldFailures(table[field], field, p, ctx)| else 0
  {
    if field !in table then []
    else
      var fs := FieldFailures(table[field], field, p, ctx);
      seq(|fs|, k requires 0 <= k < |fs| => MessageFor(custom, field, fs[k]))
  }
}
