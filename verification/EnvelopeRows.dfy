/** An envelope field by field: what is accepted, what a refusal names, and what a row becomes. */
module EnvelopeRows {
  import opened Common
  import opened Envelope
  import EnvelopeLaws

  // ---------- acceptance ----------

  predicate HasName(fields: map<string, Json>, key: string) {
    key in fields && fields[key].Text? && fields[key].s != ""
  }

  predicate Absent(fields: map<string, Json>, key: string) {
    key in fields ==> fields[key] == Null
  }

  predicate HasTime(iso: Iso, fields: map<string, Json>, key: string) {
    key in fields && fields[key].Text? && iso.read(fields[key].s).Some?
  }

  predicate GoodProject(iso: Iso, row: Json) {
    && row.Object?
    && HasName(row.fields, "id") && HasName(row.fields, "name") && HasTime(iso, row.fields, "created_at")
    && (Absent(row.fields, "metadata") || row.fields["metadata"].Object?)
  }

  predicate HasTags(fields: map<string, Json>) {
    && "tags" in fields && fields["tags"].Array?
    && forall i | 0 <= i < |fields["tags"].items| :: fields["tags"].items[i].Text?
  }

  predicate GoodMemory(iso: Iso, row: Json, known: set<string>) {
    && row.Object?
    && HasName(row.fields, "id") && HasTime(iso, row.fields, "created_at")
    && "content" in row.fields && row.fields["content"].Text?
    && (Absent(row.fields, "updated_at") || HasTime(iso, row.fields, "updated_at"))
    && (Absent(row.fields, "tags") || HasTags(row.fields))
    && (Absent(row.fields, "source") || row.fields["source"].Text?)
    && (Absent(row.fields, "project_id") || (row.fields["project_id"].Text? && row.fields["project_id"].s in known))
  }

  predicate GoodProjects(iso: Iso, rows: seq<Json>) {
    && (forall i | 0 <= i < |rows| :: GoodProject(iso, rows[i]))
    && (forall i, j | 0 <= i < j < |rows| :: rows[i].fields["id"] != rows[j].fields["id"])
  }

  predicate GoodMemories(iso: Iso, rows: seq<Json>, known: set<string>) {
    && (forall i | 0 <= i < |rows| :: GoodMemory(iso, rows[i], known))
    && (forall i, j | 0 <= i < j < |rows| :: rows[i].fields["id"] != rows[j].fields["id"])
  }

  function NamedIds(rows: seq<Json>): set<string> {
    set i | 0 <= i < |rows| && rows[i].Object? && HasName(rows[i].fields, "id") :: rows[i].fields["id"].s
  }

  predicate HasArray(payload: Json, key: string) {
    payload.Object? && key in payload.fields && payload.fields[key].Array?
  }

  lemma ProjectIsGood(iso: Iso, row: Json)
    ensures ProjectOk(iso, row) <==> GoodProject(iso, row)
    ensures GoodProject(iso, row) ==> IdOf(row) == row.fields["id"].s
  {
  }

  lemma MemoryIsGood(iso: Iso, row: Json, known: set<string>)
    ensures MemoryOk(iso, row, known) <==> GoodMemory(iso, row, known)
    ensures GoodMemory(iso, row, known) ==> IdOf(row) == row.fields["id"].s
  {
  }

  lemma ProjectsAreGood(iso: Iso, rows: seq<Json>)
    ensures AllProjectsOk(iso, rows) && DistinctIds(rows) <==> GoodProjects(iso, rows)
    ensures GoodProjects(iso, rows) ==> Ids(rows) == NamedIds(rows)
  {
    forall i | 0 <= i < |rows|
      ensures ProjectOk(iso, rows[i]) <==> GoodProject(iso, rows[i])
      ensures GoodProject(iso, rows[i]) ==> IdOf(rows[i]) == rows[i].fields["id"].s
    {
      ProjectIsGood(iso, rows[i]);
    }
  }

  lemma MemoriesAreGood(iso: Iso, rows: seq<Json>, known: set<string>)
    ensures AllMemoriesOk(iso, rows, known) && DistinctIds(rows) <==> GoodMemories(iso, rows, known)
  {
    forall i | 0 <= i < |rows|
      ensures MemoryOk(iso, rows[i], known) <==> GoodMemory(iso, rows[i], known)
      ensures GoodMemory(iso, rows[i], known) ==> IdOf(rows[i]) == rows[i].fields["id"].s
    {
      MemoryIsGood(iso, rows[i], known);
    }
  }

  lemma StructureIsGood(payload: Json)
    ensures Structure(payload).None? <==>
              && HasArray(payload, "projects") && HasArray(payload, "memory_items")
              && "format_version" in payload.fields && payload.fields["format_version"] == Int(1)
  {
  }

  /** What an import accepts: the right mode, into an empty store if it is to replace, and an object of version
    * 1 with two arrays, whose rows are good, repeat no id and name only projects of the store or of the
    * envelope. */
  lemma AcceptsExactly(iso: Iso, c: Contents, payload: Json, mode: string)
    ensures Refusal(iso, c, payload, mode).None? <==>
              && (mode == "merge" || (mode == "replace" && c.projects == map[] && c.memories == map[]))
              && HasArray(payload, "projects") && HasArray(payload, "memory_items")
              && "format_version" in payload.fields && payload.fields["format_version"] == Int(1)
              && var projects := payload.fields["projects"].items;
              && GoodProjects(iso, projects)
              && GoodMemories(iso, payload.fields["memory_items"].items, c.projects.Keys + NamedIds(projects))
  {
    StructureIsGood(payload);
    ValidationIsExact(iso, payload, c.projects.Keys);
    ProjectsAreGood(iso, Rows(payload, "projects"));
    MemoriesAreGood(iso, Rows(payload, "memory_items"), c.projects.Keys + Ids(Rows(payload, "projects")));
  }

  // ---------- refusal ----------

  // The first row of these that is bad or repeats the id of one before it
  ghost predicate FirstBad(good: Json -> bool, rows: seq<Json>, k: nat) {
    && k < |rows|
    && (forall i | 0 <= i < k :: good(rows[i]))
    && (forall i, j | 0 <= i < j < k :: IdOf(rows[i]) != IdOf(rows[j]))
    && (!good(rows[k]) || exists i :: 0 <= i < k && IdOf(rows[i]) == IdOf(rows[k]))
  }

  lemma {:induction false} ProjectsRefusedAt(iso: Iso, rows: seq<Json>, seen: set<string>, i: nat, k: nat)
    requires i <= |rows| && seen == Ids(rows[..i])
    requires forall j | 0 <= j < i :: GoodProject(iso, rows[j])
    requires forall a, b | 0 <= a < b < i :: IdOf(rows[a]) != IdOf(rows[b])
    ensures CheckProjects(iso, rows, seen, i) == Some(BadRow("projects", k))
        ==> FirstBad(row => GoodProject(iso, row), rows, k)
    decreases |rows| - i
  {
    if i < |rows| {
      ProjectIsGood(iso, rows[i]);
      assert rows[..i + 1] == rows[..i] + [rows[i]];
      IdsSnoc(rows[..i], rows[i]);
      SeenBefore(rows, i);
      if ProjectOk(iso, rows[i]) && IdOf(rows[i]) !in seen {
        ProjectsRefusedAt(iso, rows, seen + {IdOf(rows[i])}, i + 1, k);
      }
    }
  }

  lemma SeenBefore(rows: seq<Json>, i: nat)
    requires i < |rows|
    ensures IdOf(rows[i]) in Ids(rows[..i]) <==> exists j :: 0 <= j < i && IdOf(rows[j]) == IdOf(rows[i])
  {
    forall j | 0 <= j < i
      ensures IdOf(rows[j]) in Ids(rows[..i])
    {
      assert rows[..i][j] == rows[j];
    }
    if IdOf(rows[i]) in Ids(rows[..i]) {
      var j :| 0 <= j < i && IdOf(rows[..i][j]) == IdOf(rows[i]);
      assert rows[..i][j] == rows[j];
    }
  }

  lemma {:induction false} MemoriesRefusedAt(iso: Iso, rows: seq<Json>, known: set<string>, seen: set<string>, i: nat, k: nat)
    requires i <= |rows| && seen == Ids(rows[..i])
    requires forall j | 0 <= j < i :: GoodMemory(iso, rows[j], known)
    requires forall a, b | 0 <= a < b < i :: IdOf(rows[a]) != IdOf(rows[b])
    ensures CheckMemories(iso, rows, known, seen, i) == Some(BadRow("memory_items", k))
        ==> FirstBad(row => GoodMemory(iso, row, known), rows, k)
    decreases |rows| - i
  {
    if i < |rows| {
      MemoryIsGood(iso, rows[i], known);
      assert rows[..i + 1] == rows[..i] + [rows[i]];
      IdsSnoc(rows[..i], rows[i]);
      SeenBefore(rows, i);
      if MemoryOk(iso, rows[i], known) && IdOf(rows[i]) !in seen {
        MemoriesRefusedAt(iso, rows, known, seen + {IdOf(rows[i])}, i + 1, k);
      }
    }
  }

  lemma {:induction false} ChecksNameTheirRows(iso: Iso, rows: seq<Json>, known: set<string>, seen: set<string>, i: nat)
    requires i <= |rows|
    ensures var e := CheckProjects(iso, rows, seen, i); e.Some? ==> e.value.BadRow? && e.value.collection == "projects"
    ensures var e := CheckMemories(iso, rows, known, seen, i); e.Some? ==> e.value.BadRow? && e.value.collection == "memory_items"
    decreases |rows| - i
  {
    if i < |rows| {
      ChecksNameTheirRows(iso, rows, known, seen + {IdOf(rows[i])}, i + 1);
    }
  }

  /** A refusal that names a row names the first that is bad or repeats an id, and looks at the memories only
    * when every project is good. */
  lemma RefusalNamesTheFirst(iso: Iso, c: Contents, payload: Json, mode: string, k: nat)
    ensures Refusal(iso, c, payload, mode) == Some(BadRow("projects", k)) ==>
              HasArray(payload, "projects") && FirstBad(row => GoodProject(iso, row), payload.fields["projects"].items, k)
    ensures Refusal(iso, c, payload, mode) == Some(BadRow("memory_items", k)) ==>
              && HasArray(payload, "projects") && HasArray(payload, "memory_items")
              && var projects := payload.fields["projects"].items;
              && GoodProjects(iso, projects)
              && FirstBad(row => GoodMemory(iso, row, c.projects.Keys + NamedIds(projects)), payload.fields["memory_items"].items, k)
  {
    var projects, memories := Rows(payload, "projects"), Rows(payload, "memory_items");
    var known := c.projects.Keys + Ids(projects);
    StructureIsGood(payload);
    assert Ids(projects[..0]) == {} && Ids(memories[..0]) == {};
    ProjectsRefusedAt(iso, projects, {}, 0, k);
    MemoriesRefusedAt(iso, memories, known, {}, 0, k);
    ChecksNameTheirRows(iso, projects, known, {}, 0);
    ChecksNameTheirRows(iso, memories, known, {}, 0);
    ProjectsCheck(iso, projects, {}, 0);
    ProjectsAreGood(iso, projects);
  }

  /** The other refusals, in the order they are tried: the mode, the document, the store that a replacement
    * would have to find empty, the version, and the two arrays. */
  lemma RefusalsInOrder(iso: Iso, c: Contents, payload: Json, mode: string)
    ensures var r := Refusal(iso, c, payload, mode);
            var tried := mode == "merge" || mode == "replace";
            var empty := mode == "merge" || (c.projects == map[] && c.memories == map[]);
            && (r == Some(BadMode) <==> !tried)
            && (r == Some(NotAnObject) <==> tried && !payload.Object?)
            && (r == Some(NotEmpty) <==> tried && payload.Object? && !empty)
            && (tried && payload.Object? && empty ==>
                  var fields := payload.fields;
                  var version := "format_version" in fields && fields["format_version"] == Int(1);
                  && (r == Some(BadVersion) <==> !version)
                  && (r == Some(MissingArray("projects")) <==> version && "projects" !in fields)
                  && (r == Some(NotAnArray("projects")) <==> version && "projects" in fields && !HasArray(payload, "projects"))
                  && (r == Some(MissingArray("memory_items")) <==>
                        version && HasArray(payload, "projects") && "memory_items" !in fields)
                  && (r == Some(NotAnArray("memory_items")) <==>
                        version && HasArray(payload, "projects") && "memory_items" in fields && !HasArray(payload, "memory_items")))
  {
    var projects, memories := Rows(payload, "projects"), Rows(payload, "memory_items");
    ChecksNameTheirRows(iso, projects, {}, {}, 0);
    ChecksNameTheirRows(iso, memories, c.projects.Keys + Ids(projects), {}, 0);
    assert "projects"[0] != "memory_items"[0];
  }

  // ---------- what a row becomes ----------

  // Anything but null, false, zero and the empty text, array and object
  predicate CountsAsTrue(fields: map<string, Json>, key: string) {
    && key in fields
    && fields[key] !in {Null, Bool(false), Int(0), Decimal(0.0), Text(""), Array([]), Object(map[])}
  }

  predicate StoresProject(iso: Iso, fields: map<string, Json>, p: Project)
    requires GoodProject(iso, Object(fields))
  {
    && p.name == fields["name"].s
    && p.metadata == (if Absent(fields, "metadata") then map[] else fields["metadata"].fields)
    && Some(p.created) == iso.read(fields["created_at"].s)
  }

  predicate StoresMemory(iso: Iso, fields: map<string, Json>, known: set<string>, m: Memory)
    requires GoodMemory(iso, Object(fields), known)
  {
    && m.content == fields["content"].s
    && (Absent(fields, "tags") ==> m.tags == [])
    && (!Absent(fields, "tags") ==>
          && |m.tags| == |fields["tags"].items|
          && forall i | 0 <= i < |m.tags| :: Text(m.tags[i]) == fields["tags"].items[i])
    && m.pinned == CountsAsTrue(fields, "pinned")
    && (if Absent(fields, "project_id") then m.project.None? else m.project == Some(fields["project_id"].s))
    && m.source == (if Absent(fields, "source") || fields["source"].s == "" then "import" else fields["source"].s)
    && Some(m.created) == iso.read(fields["created_at"].s)
    && (if Absent(fields, "updated_at") then m.updated.None? else m.updated == iso.read(fields["updated_at"].s))
  }

  lemma RowBecomesProject(iso: Iso, row: Json)
    requires GoodProject(iso, row)
    ensures ProjectOk(iso, row) && StoresProject(iso, row.fields, ProjectOf(iso, row))
  {
  }

  lemma RowBecomesMemory(iso: Iso, row: Json, known: set<string>)
    requires GoodMemory(iso, row, known)
    ensures MemoryOk(iso, row, known) && StoresMemory(iso, row.fields, known, MemoryOf(iso, row))
  {
  }

  /** An accepted import stores every row that is new and no watermark, field by field as the envelope has it,
    * with the defaults of what is missing, and holds nothing else but what was there. */
  lemma StoresTheRows(iso: Iso, c: Contents, payload: Json, mode: string, k: nat)
    requires Linked(c) && Refusal(iso, c, payload, mode).None?
    ensures AllProjectsOk(iso, Rows(payload, "projects")) && AllMemoriesOk(iso, Rows(payload, "memory_items"), Known(c, payload))
    ensures HasArray(payload, "projects") && HasArray(payload, "memory_items")
    ensures var after := Imported(iso, c, payload);
            var projects, memories := payload.fields["projects"].items, payload.fields["memory_items"].items;
            var known := c.projects.Keys + NamedIds(projects);
            && (k < |projects| && projects[k].fields["id"].s !in c.projects ==>
                  && projects[k].fields["id"].s in after.projects
                  && StoresProject(iso, projects[k].fields, after.projects[projects[k].fields["id"].s]))
            && (k < |memories| && memories[k].fields["id"].s !in c.memories
                && !("source" in memories[k].fields && memories[k].fields["source"] == Text("git-onboard-watermark")) ==>
                  && memories[k].fields["id"].s in after.memories
                  && StoresMemory(iso, memories[k].fields, known, after.memories[memories[k].fields["id"].s]))
  {
    AcceptsExactly(iso, c, payload, mode);
    EnvelopeLaws.ImportIsUnionById(iso, c, payload);
    var projects, memories := payload.fields["projects"].items, payload.fields["memory_items"].items;
    if k < |projects| {
      ProjectIsGood(iso, projects[k]);
      RowBecomesProject(iso, projects[k]);
    }
    if k < |memories| {
      MemoryIsGood(iso, memories[k], c.projects.Keys + NamedIds(projects));
      RowBecomesMemory(iso, memories[k], c.projects.Keys + NamedIds(projects));
    }
  }

  // ---------- counts ----------

  // What happens to a row of the envelope
  predicate IsWatermark(row: Json) {
    row.Object? && "source" in row.fields && row.fields["source"] == Text("git-onboard-watermark")
  }

  function Where(rows: seq<Json>, holds: Json -> bool): set<nat> {
    set i | 0 <= i < |rows| && holds(rows[i])
  }

  lemma WhereSnoc(rows: seq<Json>, row: Json, holds: Json -> bool)
    ensures |Where(rows + [row], holds)| == |Where(rows, holds)| + (if holds(row) then 1 else 0)
  {
    var before, all := Where(rows, holds), rows + [row];
    assert all[|rows|] == row && forall i | 0 <= i < |rows| :: all[i] == rows[i];
    assert Where(all, holds) == if holds(row) then before + {|rows|} else before;
  }

  lemma {:induction false} ProjectCounts(rows: seq<Json>, existing: set<string>)
    ensures ProjectTally(rows, existing, Added) == |Where(rows, row => IdOf(row) !in existing)|
    ensures ProjectTally(rows, existing, Fate.Skipped) == |Where(rows, row => IdOf(row) in existing)|
    decreases |rows|
  {
    if rows != [] {
      var n := |rows| - 1;
      ProjectCounts(rows[..n], existing);
      assert rows == rows[..n] + [rows[n]];
      WhereSnoc(rows[..n], rows[n], row => IdOf(row) !in existing);
      WhereSnoc(rows[..n], rows[n], row => IdOf(row) in existing);
    }
  }

  lemma {:induction false} FateCounts(rows: seq<Json>, existing: set<string>, fate: Fate, holds: Json -> bool)
    requires forall row :: holds(row) <==> MemoryFate(row, existing) == fate
    ensures MemoryTally(rows, existing, fate) == |Where(rows, holds)|
    decreases |rows|
  {
    if rows != [] {
      var n := |rows| - 1;
      FateCounts(rows[..n], existing, fate, holds);
      assert rows == rows[..n] + [rows[n]];
      WhereSnoc(rows[..n], rows[n], holds);
    }
  }

  lemma {:induction false} OversizedCounts(rows: seq<Json>, existing: set<string>, holds: Json -> bool)
    requires forall row :: holds(row) <==> MemoryFate(row, existing) == Added && IsOversized(row)
    ensures OversizedTally(rows, existing) == |Where(rows, holds)|
    decreases |rows|
  {
    if rows != [] {
      var n := |rows| - 1;
      OversizedCounts(rows[..n], existing, holds);
      assert rows == rows[..n] + [rows[n]];
      WhereSnoc(rows[..n], rows[n], holds);
    }
  }

  lemma FateIs(row: Json, existing: set<string>)
    ensures MemoryFate(row, existing)
         == if IsWatermark(row) then Dropped else if IdOf(row) in existing then Fate.Skipped else Added
  {
  }

  lemma MemoryCounts(rows: seq<Json>, existing: set<string>)
    ensures MemoryTally(rows, existing, Added) == |Where(rows, row => !IsWatermark(row) && IdOf(row) !in existing)|
    ensures MemoryTally(rows, existing, Fate.Skipped) == |Where(rows, row => !IsWatermark(row) && IdOf(row) in existing)|
    ensures MemoryTally(rows, existing, Dropped) == |Where(rows, IsWatermark)|
    ensures OversizedTally(rows, existing) == |Where(rows, row => !IsWatermark(row) && IdOf(row) !in existing && IsOversized(row))|
  {
    forall row
      ensures MemoryFate(row, existing)
           == if IsWatermark(row) then Dropped else if IdOf(row) in existing then Fate.Skipped else Added
    {
      FateIs(row, existing);
    }
    FateCounts(rows, existing, Added, row => !IsWatermark(row) && IdOf(row) !in existing);
    FateCounts(rows, existing, Fate.Skipped, row => !IsWatermark(row) && IdOf(row) in existing);
    FateCounts(rows, existing, Dropped, IsWatermark);
    OversizedCounts(rows, existing, row => !IsWatermark(row) && IdOf(row) !in existing && IsOversized(row));
  }

  predicate IsOversized(row: Json) {
    row.Object? && "content" in row.fields && row.fields["content"].Text? && |row.fields["content"].s| > 100000
  }

  /** Each count is the number of rows it is named for: new or known projects; watermarks; and new, known and
    * over-long memories among the rest. */
  lemma CountsAreExact(c: Contents, payload: Json)
    requires HasArray(payload, "projects") && HasArray(payload, "memory_items")
    ensures var projects, memories := payload.fields["projects"].items, payload.fields["memory_items"].items;
            CountsOf(c, payload) == Counts(
              |Where(projects, row => IdOf(row) !in c.projects)|,
              |Where(projects, row => IdOf(row) in c.projects)|,
              |Where(memories, row => !IsWatermark(row) && IdOf(row) !in c.memories)|,
              |Where(memories, row => !IsWatermark(row) && IdOf(row) in c.memories)|,
              |Where(memories, row => IsWatermark(row))|,
              |Where(memories, row => !IsWatermark(row) && IdOf(row) !in c.memories && IsOversized(row))|)
  {
    var projects, memories := payload.fields["projects"].items, payload.fields["memory_items"].items;
    ProjectCounts(projects, c.projects.Keys);
    MemoryCounts(memories, c.memories.Keys);
    assert Where(projects, row => IdOf(row) !in c.projects) == Where(projects, row => IdOf(row) !in c.projects.Keys);
    assert Where(projects, row => IdOf(row) in c.projects) == Where(projects, row => IdOf(row) in c.projects.Keys);
    assert Where(memories, row => !IsWatermark(row) && IdOf(row) !in c.memories)
        == Where(memories, row => !IsWatermark(row) && IdOf(row) !in c.memories.Keys);
    assert Where(memories, row => !IsWatermark(row) && IdOf(row) in c.memories)
        == Where(memories, row => !IsWatermark(row) && IdOf(row) in c.memories.Keys);
    assert Where(memories, row => IsWatermark(row)) == Where(memories, IsWatermark);
    assert Where(memories, row => !IsWatermark(row) && IdOf(row) !in c.memories && IsOversized(row))
        == Where(memories, row => !IsWatermark(row) && IdOf(row) !in c.memories.Keys && IsOversized(row));
  }

  // ---------- what an export lists ----------

  predicate Lists(rows: seq<Json>, id: string) {
    exists i :: 0 <= i < |rows| && rows[i].Object? && "id" in rows[i].fields && rows[i].fields["id"] == Text(id)
  }

  lemma ListsProjects(iso: Iso, projects: map<string, Project>, order: seq<string>, id: string)
    requires EnvelopeLaws.Enumerates(order, projects.Keys)
    ensures Lists(EnvelopeLaws.ExportProjects(iso, projects, order), id) <==> id in projects
  {
    var rows := EnvelopeLaws.ExportProjects(iso, projects, order);
    forall i | 0 <= i < |rows|
      ensures rows[i].Object? && "id" in rows[i].fields && rows[i].fields["id"] == Text(order[i])
    {
    }
    if id in projects {
      var i :| 0 <= i < |order| && order[i] == id;
      assert rows[i].fields["id"] == Text(id);
    }
  }

  lemma ListsMemories(iso: Iso, memories: map<string, Memory>, order: seq<string>, id: string)
    requires EnvelopeLaws.Enumerates(order, memories.Keys)
    ensures Lists(EnvelopeLaws.ExportMemories(iso, memories, order), id) <==> id in memories
  {
    var rows := EnvelopeLaws.ExportMemories(iso, memories, order);
    forall i | 0 <= i < |rows|
      ensures rows[i].Object? && "id" in rows[i].fields && rows[i].fields["id"] == Text(order[i])
    {
      EnvelopeLaws.MemoryFields(iso, order[i], memories[order[i]]);
    }
    if id in memories {
      var i :| 0 <= i < |order| && order[i] == id;
      assert rows[i].fields["id"] == Text(id);
    }
  }

  /** An export of everything lists every project, and every memory but the watermarks; one of a project lists
    * that project if there is one, and its memories but the watermarks. */
  lemma ExportListsExactly(iso: Iso, c: Contents, scope: Option<string>,
                           projectOrder: seq<string>, memoryOrder: seq<string>, now: int, id: string)
    requires EnvelopeLaws.Enumerates(projectOrder, EnvelopeLaws.Scoped(c, scope).projects.Keys)
    requires EnvelopeLaws.Enumerates(memoryOrder, EnvelopeLaws.Scoped(c, scope).memories.Keys)
    ensures var payload := EnvelopeLaws.Export(iso, EnvelopeLaws.Scoped(c, scope), projectOrder, memoryOrder, now);
            && HasArray(payload, "projects") && HasArray(payload, "memory_items")
            && (Lists(payload.fields["projects"].items, id) <==> id in c.projects && (scope.None? || id == scope.value))
            && (Lists(payload.fields["memory_items"].items, id) <==>
                  && id in c.memories && c.memories[id].source != "git-onboard-watermark"
                  && (scope.None? || c.memories[id].project == scope))
  {
    var part := EnvelopeLaws.Scoped(c, scope);
    var portable := EnvelopeLaws.Portable(part);
    var kept := EnvelopeLaws.Kept(part.memories, memoryOrder);
    EnvelopeLaws.ExportDropsWatermarks(iso, part, projectOrder, memoryOrder, now);
    ListsProjects(iso, part.projects, projectOrder, id);
    ListsMemories(iso, portable.memories, kept, id);
  }
}
