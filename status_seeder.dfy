/**
 * The status seeder: upserts the three fixed statuses by slug, one after the other.
 * Running it leaves exactly one row per seeded slug carrying the seeded attributes,
 * keeps every other row, and running it again changes nothing.
 */
module StatusSeeder {
  import opened Wrappers
  import opened Seqs
  import opened Records
  import opened Database
  import TaskService

  /** The attributes `updateOrCreate` writes for one status. */
  datatype SeedRecord = SeedRecord(name: string, slug: string, color: string, order: int)

  const Seeds: seq<SeedRecord> := [
    SeedRecord("Pendente", "pending", "bg-yellow-400", 1),
    SeedRecord("Em Andamento", "in_progress", "bg-blue-400", 2),
    SeedRecord("Concluído", "completed", "bg-green-400", 3)]

  /** The status table with its auto-increment counter. */
  datatype StatusTable = StatusTable(rows: seq<Status>, nextId: nat)

  /** Ids unique and below the counter, slugs unique. */
  predicate TableOk(t: StatusTable)
  {
    && DistinctBy(t.rows, StatusIdKey)
    && (forall i :: 0 <= i < |t.rows| ==> t.rows[i].id < t.nextId)
    && DistinctBy(t.rows, StatusSlugKey)
  }

  /** The row carries every seeded attribute of `a`. */
  predicate Carries(s: Status, a: SeedRecord)
  {
    s.name == a.name && s.slug == a.slug && s.color == a.color && s.order == a.order
  }

  /** Some row of the table carries `a`. */
  predicate Settled(rows: seq<Status>, a: SeedRecord)
  {
    exists k :: 0 <= k < |rows| && Carries(rows[k], a)
  }

  /** `Status::updateOrCreate(['slug' => a.slug], a)`: the first row with that slug is
      overwritten in place, keeping its id; without one a row is appended under the next id. */
  function Upsert(t: StatusTable, a: SeedRecord): (r: StatusTable)
    ensures |t.rows| <= |r.rows| <= |t.rows| + 1
    ensures |r.rows| == |t.rows| + 1 <==> forall k :: 0 <= k < |t.rows| ==> t.rows[k].slug != a.slug
    ensures forall k :: 0 <= k < |t.rows| && t.rows[k].slug != a.slug ==> r.rows[k] == t.rows[k]
    ensures forall k :: 0 <= k < |t.rows| ==> r.rows[k].id == t.rows[k].id
    ensures |r.rows| == |t.rows| ==> r.nextId == t.nextId
    ensures |r.rows| > |t.rows| ==>
      r.rows[|t.rows|] == Status(t.nextId, a.name, a.slug, a.color, a.order) && r.nextId == t.nextId + 1
    ensures Settled(r.rows, a)
  {
    match FirstIndex(t.rows, HasSlug(a.slug))
    case Some(k) =>
      var r := StatusTable(t.rows[k := Status(t.rows[k].id, a.name, a.slug, a.color, a.order)], t.nextId);
      assert Carries(r.rows[k], a);
      r
    case None =>
      var r := StatusTable(t.rows + [Status(t.nextId, a.name, a.slug, a.color, a.order)], t.nextId + 1);
      assert Carries(r.rows[|t.rows|], a);
      r
  }

  /** The table after upserting `seeds` in order. */
  function UpsertAll(t: StatusTable, seeds: seq<SeedRecord>): StatusTable
    decreases |seeds|
  {
    if |seeds| == 0 then t else Upsert(UpsertAll(t, seeds[..|seeds| - 1]), seeds[|seeds| - 1])
  }

  /** The table after `run()`. */
  function Seeded(t: StatusTable): StatusTable
  {
    UpsertAll(t, Seeds)
  }

  /** An upsert keeps ids and slugs unique. */
  lemma {:induction false} UpsertKeepsTableOk(t: StatusTable, a: SeedRecord)
    requires TableOk(t)
    ensures TableOk(Upsert(t, a))
  {
    var r := Upsert(t, a);
    forall i, j | 0 <= i < j < |r.rows| ensures r.rows[i].slug != r.rows[j].slug {
      if j < |t.rows| {
        if t.rows[i].slug == a.slug || t.rows[j].slug == a.slug {
          var k := FirstIndex(t.rows, HasSlug(a.slug)).value;
          assert t.rows[k].slug == a.slug;
        }
      } else {
        assert FirstIndex(t.rows, HasSlug(a.slug)).None?;
        assert HasSlug(a.slug)(t.rows[i]) == false;
      }
    }
  }

  /** With unique slugs, the row carrying `a` is the only row with `a`'s slug. */
  lemma {:induction false} SettledRowIsUnique(rows: seq<Status>, a: SeedRecord, k: nat)
    requires DistinctBy(rows, StatusSlugKey) && Settled(rows, a)
    requires k < |rows| && rows[k].slug == a.slug
    ensures Carries(rows[k], a)
  {
    var m :| 0 <= m < |rows| && Carries(rows[m], a);
    assert StatusSlugKey(rows[m]) == StatusSlugKey(rows[k]);
    assert m == k;
  }

  /** Upserting a record that is already in place changes nothing. */
  lemma {:induction false} UpsertSettledIsNoop(t: StatusTable, a: SeedRecord)
    requires TableOk(t) && Settled(t.rows, a)
    ensures Upsert(t, a) == t
  {
    var m :| 0 <= m < |t.rows| && Carries(t.rows[m], a);
    assert HasSlug(a.slug)(t.rows[m]);
    var k := FirstIndex(t.rows, HasSlug(a.slug)).value;
    SettledRowIsUnique(t.rows, a, k);
    assert t.rows[k] == Status(t.rows[k].id, a.name, a.slug, a.color, a.order);
    assert t.rows[k := t.rows[k]] == t.rows;
  }

  /** Upserting a record with another slug leaves a settled record settled. */
  lemma {:induction false} UpsertKeepsSettled(t: StatusTable, a: SeedRecord, b: SeedRecord)
    requires Settled(t.rows, b) && b.slug != a.slug
    ensures Settled(Upsert(t, a).rows, b)
  {
    var m :| 0 <= m < |t.rows| && Carries(t.rows[m], b);
    assert Carries(Upsert(t, a).rows[m], b);
  }

  /** The seeded slugs. */
  const SeedSlugs: set<string> := {"pending", "in_progress", "completed"}

  /** `r` grew from `t` by upserts of slugs in `slugs`: every old position keeps its id and
      slug, an old row whose slug is not in `slugs` is kept as it was, and every added row
      has a slug in `slugs`. */
  predicate Extends(t: StatusTable, r: StatusTable, slugs: set<string>)
  {
    && |t.rows| <= |r.rows|
    && (forall k :: 0 <= k < |t.rows| ==> r.rows[k].id == t.rows[k].id && r.rows[k].slug == t.rows[k].slug)
    && (forall k :: 0 <= k < |t.rows| && t.rows[k].slug !in slugs ==> r.rows[k] == t.rows[k])
    && (forall k :: |t.rows| <= k < |r.rows| ==> r.rows[k].slug in slugs)
  }

  lemma {:induction false} UpsertExtends(t: StatusTable, a: SeedRecord, slugs: set<string>)
    requires a.slug in slugs
    ensures Extends(t, Upsert(t, a), slugs)
  {
    var r := Upsert(t, a);
    forall k | 0 <= k < |t.rows| ensures r.rows[k].slug == t.rows[k].slug {
      if t.rows[k].slug != a.slug {
      } else if |r.rows| == |t.rows| {
        var m := FirstIndex(t.rows, HasSlug(a.slug)).value;
        assert r.rows[k] == t.rows[k] || r.rows[k].slug == a.slug;
      }
    }
  }

  lemma {:induction false} ExtendsTransitive(t: StatusTable, u: StatusTable, r: StatusTable, slugs: set<string>)
    requires Extends(t, u, slugs) && Extends(u, r, slugs)
    ensures Extends(t, r, slugs)
  {
  }

  /** `run()` is three upserts, in the listed order. */
  lemma {:induction false} UpsertsInOrder(t: StatusTable)
    ensures Seeded(t) == Upsert(Upsert(Upsert(t, Seeds[0]), Seeds[1]), Seeds[2])
  {
    assert Seeds[..3] == Seeds;
    assert Seeds[..3][..2] == Seeds[..2];
    assert Seeds[..2][..1] == Seeds[..1];
    assert Seeds[..1][..0] == [];
    assert UpsertAll(t, Seeds[..1]) == Upsert(t, Seeds[0]);
    assert UpsertAll(t, Seeds[..2]) == Upsert(UpsertAll(t, Seeds[..1]), Seeds[1]);
    assert UpsertAll(t, Seeds[..3]) == Upsert(UpsertAll(t, Seeds[..2]), Seeds[2]);
  }

  /** After `run()` ids and slugs are still unique. */
  lemma {:induction false} SeededTableOk(t: StatusTable)
    requires TableOk(t)
    ensures TableOk(Seeded(t))
  {
    var t1 := Upsert(t, Seeds[0]);
    var t2 := Upsert(t1, Seeds[1]);
    UpsertsInOrder(t);
    UpsertKeepsTableOk(t, Seeds[0]);
    UpsertKeepsTableOk(t1, Seeds[1]);
    UpsertKeepsTableOk(t2, Seeds[2]);
  }

  /** After `run()` each seeded status is present with its listed name, color and order;
      with unique slugs (SeededTableOk) it is there exactly once. */
  lemma {:induction false} SeededAll(t: StatusTable)
    ensures Settled(Seeded(t).rows, Seeds[0])
    ensures Settled(Seeded(t).rows, Seeds[1])
    ensures Settled(Seeded(t).rows, Seeds[2])
  {
    var t1 := Upsert(t, Seeds[0]);
    var t2 := Upsert(t1, Seeds[1]);
    UpsertsInOrder(t);
    UpsertKeepsSettled(t1, Seeds[1], Seeds[0]);
    UpsertKeepsSettled(t2, Seeds[2], Seeds[0]);
    UpsertKeepsSettled(t2, Seeds[2], Seeds[1]);
  }

  /** `run()` keeps every row whose slug is not seeded, at its position, and adds only
      rows with seeded slugs. */
  lemma {:induction false} SeededKeepsOthers(t: StatusTable)
    ensures Extends(t, Seeded(t), SeedSlugs)
  {
    var t1 := Upsert(t, Seeds[0]);
    var t2 := Upsert(t1, Seeds[1]);
    UpsertsInOrder(t);
    UpsertExtends(t, Seeds[0], SeedSlugs);
    UpsertExtends(t1, Seeds[1], SeedSlugs);
    UpsertExtends(t2, Seeds[2], SeedSlugs);
    ExtendsTransitive(t, t1, t2, SeedSlugs);
    ExtendsTransitive(t, t2, Seeded(t), SeedSlugs);
  }

  /** Running the seeder twice gives the same table as running it once. */
  lemma {:induction false} SeedIdempotent(t: StatusTable)
    requires TableOk(t)
    ensures Seeded(Seeded(t)) == Seeded(t)
  {
    var s := Seeded(t);
    SeededTableOk(t);
    SeededAll(t);
    UpsertsInOrder(s);
    UpsertSettledIsNoop(s, Seeds[0]);
    UpsertSettledIsNoop(s, Seeds[1]);
    UpsertSettledIsNoop(s, Seeds[2]);
  }

  /** Seeding an empty table creates the three statuses, in order, under consecutive ids. */
  lemma SeedEmptyTable(n: nat)
    ensures Seeded(StatusTable([], n)) == StatusTable([
      Status(n, "Pendente", "pending", "bg-yellow-400", 1),
      Status(n + 1, "Em Andamento", "in_progress", "bg-blue-400", 2),
      Status(n + 2, "Concluído", "completed", "bg-green-400", 3)], n + 3)
  {
    UpsertsInOrder(StatusTable([], n));
    ThreeNewSlugs(n, Seeds[0], Seeds[1], Seeds[2]);
  }

  /** Three upserts of distinct slugs into an empty table append three rows in order. */
  lemma {:induction false} ThreeNewSlugs(n: nat, a0: SeedRecord, a1: SeedRecord, a2: SeedRecord)
    requires a0.slug != a1.slug && a0.slug != a2.slug && a1.slug != a2.slug
    ensures Upsert(Upsert(Upsert(StatusTable([], n), a0), a1), a2) == StatusTable([
      Status(n, a0.name, a0.slug, a0.color, a0.order),
      Status(n + 1, a1.name, a1.slug, a1.color, a1.order),
      Status(n + 2, a2.name, a2.slug, a2.color, a2.order)], n + 3)
  {
    var r0 := Status(n, a0.name, a0.slug, a0.color, a0.order);
    var r1 := Status(n + 1, a1.name, a1.slug, a1.color, a1.order);
    var r2 := Status(n + 2, a2.name, a2.slug, a2.color, a2.order);
    var t0, t1, t2 := StatusTable([], n), StatusTable([r0], n + 1), StatusTable([r0, r1], n + 2);
    assert Upsert(t0, a0) == t1 by {
      UpsertAppends(t0, a0);
      assert [] + [r0] == [r0];
    }
    assert Upsert(t1, a1) == t2 by {
      UpsertAppends(t1, a1);
      assert [r0] + [r1] == [r0, r1];
    }
    assert Upsert(t2, a2) == StatusTable([r0, r1, r2], n + 3) by {
      UpsertAppends(t2, a2);
      assert [r0, r1] + [r2] == [r0, r1, r2];
    }
  }

  /** Upserting a slug no row has appends one row under the next id. */
  lemma {:induction false} UpsertAppends(t: StatusTable, a: SeedRecord)
    requires forall k :: 0 <= k < |t.rows| ==> t.rows[k].slug != a.slug
    ensures Upsert(t, a) == StatusTable(t.rows + [Status(t.nextId, a.name, a.slug, a.color, a.order)], t.nextId + 1)
  {
    assert FirstIndex(t.rows, HasSlug(a.slug)).None?;
  }

  /** After seeding, the default status of a new task is `pending`, provided no unseeded
      status has an order of 1 or less. */
  lemma {:induction false} SeededDefaultIsPending(t: StatusTable)
    requires TableOk(t)
    requires forall k :: 0 <= k < |t.rows| && t.rows[k].slug !in SeedSlugs ==> t.rows[k].order > 1
    ensures TaskService.DefaultStatusSlug(Seeded(t).rows) == "pending"
  {
    SeededTableOk(t);
    SeededAll(t);
    SeededKeepsOthers(t);
    LowestIsPending(t, Seeded(t));
  }

  lemma {:induction false} LowestIsPending(t: StatusTable, s: StatusTable)
    requires forall k :: 0 <= k < |t.rows| && t.rows[k].slug !in SeedSlugs ==> t.rows[k].order > 1
    requires TableOk(s) && Extends(t, s, SeedSlugs)
    requires Settled(s.rows, Seeds[0]) && Settled(s.rows, Seeds[1]) && Settled(s.rows, Seeds[2])
    ensures TaskService.DefaultStatusSlug(s.rows) == "pending"
  {
    var p :| 0 <= p < |s.rows| && Carries(s.rows[p], Seeds[0]);
    var k := TaskService.MinOrderIndex(s.rows);
    assert s.rows[k].order <= 1 by {
      assert s.rows[k].order <= s.rows[p].order;
    }
    assert s.rows[k].slug in SeedSlugs;
    if s.rows[k].slug == Seeds[1].slug {
      SettledRowIsUnique(s.rows, Seeds[1], k);
    } else if s.rows[k].slug == Seeds[2].slug {
      SettledRowIsUnique(s.rows, Seeds[2], k);
    }
  }

  /** One `updateOrCreate` call on the status table. */
  method UpsertStatus(db: Tables, a: SeedRecord)
    requires db.Valid()
    modifies db
    ensures db.Valid()
    ensures StatusTable(db.statuses, db.nextStatusId) == Upsert(StatusTable(old(db.statuses), old(db.nextStatusId)), a)
    ensures db.projects == old(db.projects) && db.tasks == old(db.tasks)
    ensures db.nextProjectId == old(db.nextProjectId) && db.nextTaskId == old(db.nextTaskId)
  {
    var t := StatusTable(db.statuses, db.nextStatusId);
    UpsertKeepsTableOk(t, a);
    var found := FirstIndex(db.statuses, HasSlug(a.slug));
    if found.Some? {
      var k := found.value;
      db.statuses := db.statuses[k := Status(db.statuses[k].id, a.name, a.slug, a.color, a.order)];
    } else {
      db.statuses := db.statuses + [Status(db.nextStatusId, a.name, a.slug, a.color, a.order)];
      db.nextStatusId := db.nextStatusId + 1;
    }
  }

  /** `run()`: upserts each seed record in turn. */
  method Run(db: Tables)
    requires db.Valid()
    modifies db
    ensures db.Valid()
    ensures StatusTable(db.statuses, db.nextStatusId) == Seeded(StatusTable(old(db.statuses), old(db.nextStatusId)))
    ensures db.projects == old(db.projects) && db.tasks == old(db.tasks)
    ensures db.nextProjectId == old(db.nextProjectId) && db.nextTaskId == old(db.nextTaskId)
  {
    ghost var start := StatusTable(db.statuses, db.nextStatusId);
    for i := 0 to |Seeds|
      invariant db.Valid()
      invariant StatusTable(db.statuses, db.nextStatusId) == UpsertAll(start, Seeds[..i])
      invariant db.projects == old(db.projects) && db.tasks == old(db.tasks)
      invariant db.nextProjectId == old(db.nextProjectId) && db.nextTaskId == old(db.nextTaskId)
    {
      UpsertStatus(db, Seeds[i]);
      assert Seeds[..i + 1][..i] == Seeds[..i];
    }
    assert Seeds[..|Seeds|] == Seeds;
  }
}
