/** What import and export promise: the union by id with the destination's rows unchanged, every row of the
  * envelope accounted for, nothing added twice, and an export that restores the store it came from. */
module EnvelopeLaws {
  import opened Common
  import opened Envelope

  // ---------- the union ----------

  predicate Accepted(iso: Iso, c: Contents, payload: Json) {
    Validate(iso, payload, c.projects.Keys).None?
  }

  lemma AcceptedRows(iso: Iso, c: Contents, payload: Json)
    requires Accepted(iso, c, payload)
    ensures AllProjectsOk(iso, Rows(payload, "projects")) && DistinctIds(Rows(payload, "projects"))
    ensures AllMemoriesOk(iso, Rows(payload, "memory_items"), Known(c, payload))
    ensures DistinctIds(Rows(payload, "memory_items"))
  {
    ValidationIsExact(iso, payload, c.projects.Keys);
  }

  lemma {:induction false} ProjectKept(iso: Iso, base: map<string, Project>, rows: seq<Json>, id: string)
    requires AllProjectsOk(iso, rows) && id in base
    ensures id in MergeProjects(iso, base, rows) && MergeProjects(iso, base, rows)[id] == base[id]
    decreases |rows|
  {
    if rows != [] {
      ProjectKept(iso, base, rows[..|rows| - 1], id);
    }
  }

  lemma {:induction false} ProjectInserted(iso: Iso, base: map<string, Project>, rows: seq<Json>, k: nat)
    requires AllProjectsOk(iso, rows) && DistinctIds(rows) && k < |rows| && IdOf(rows[k]) !in base
    ensures IdOf(rows[k]) in MergeProjects(iso, base, rows)
    ensures MergeProjects(iso, base, rows)[IdOf(rows[k])] == ProjectOf(iso, rows[k])
    decreases |rows|
  {
    var n := |rows| - 1;
    if k < n {
      ProjectInserted(iso, base, rows[..n], k);
      assert IdOf(rows[k]) != IdOf(rows[n]);
    }
  }

  lemma MergedProject(iso: Iso, base: map<string, Project>, rows: seq<Json>)
    requires AllProjectsOk(iso, rows) && DistinctIds(rows)
    ensures
      var merged := MergeProjects(iso, base, rows);
      && merged.Keys == base.Keys + Ids(rows)
      && (forall id :: id in base ==> merged[id] == base[id])
      && (forall k :: 0 <= k < |rows| && IdOf(rows[k]) !in base ==> merged[IdOf(rows[k])] == ProjectOf(iso, rows[k]))
  {
    MergedProjectKeys(iso, base, rows);
    var merged := MergeProjects(iso, base, rows);
    forall id | id in base
      ensures merged[id] == base[id]
    {
      ProjectKept(iso, base, rows, id);
    }
    forall k | 0 <= k < |rows| && IdOf(rows[k]) !in base
      ensures IdOf(rows[k]) in merged && merged[IdOf(rows[k])] == ProjectOf(iso, rows[k])
    {
      ProjectInserted(iso, base, rows, k);
    }
  }

  /** Ids of the rows an import may insert. */
  function PortableIds(rows: seq<Json>): set<string> {
    set i | 0 <= i < |rows| && Get(rows[i], "source") != Text(WATERMARK) :: IdOf(rows[i])
  }

  lemma PortableSnoc(rows: seq<Json>, row: Json)
    ensures PortableIds(rows + [row])
         == PortableIds(rows) + (if Get(row, "source") != Text(WATERMARK) then {IdOf(row)} else {})
  {
    var all := rows + [row];
    assert forall i :: 0 <= i < |rows| ==> all[i] == rows[i];
    assert all[|rows|] == row;
    forall id | id in PortableIds(rows)
      ensures id in PortableIds(all)
    {
      var i :| 0 <= i < |rows| && Get(rows[i], "source") != Text(WATERMARK) && IdOf(rows[i]) == id;
      assert IdOf(all[i]) == id;
    }
  }

  lemma {:induction false} MergedMemoryKeys(iso: Iso, base: map<string, Memory>, rows: seq<Json>, known: set<string>)
    requires AllMemoriesOk(iso, rows, known)
    ensures MergeMemories(iso, base, rows, known).Keys == base.Keys + PortableIds(rows)
    decreases |rows|
  {
    if rows != [] {
      var n := |rows| - 1;
      MergedMemoryKeys(iso, base, rows[..n], known);
      assert rows == rows[..n] + [rows[n]];
      PortableSnoc(rows[..n], rows[n]);
    }
  }

  lemma {:induction false} MemoryKept(iso: Iso, base: map<string, Memory>, rows: seq<Json>, known: set<string>, id: string)
    requires AllMemoriesOk(iso, rows, known) && id in base
    ensures id in MergeMemories(iso, base, rows, known) && MergeMemories(iso, base, rows, known)[id] == base[id]
    decreases |rows|
  {
    if rows != [] {
      MemoryKept(iso, base, rows[..|rows| - 1], known, id);
    }
  }

  lemma {:induction false} MemoryInserted(iso: Iso, base: map<string, Memory>, rows: seq<Json>, known: set<string>, k: nat)
    requires AllMemoriesOk(iso, rows, known) && DistinctIds(rows)
    requires k < |rows| && MemoryFate(rows[k], base.Keys) == Added
    ensures IdOf(rows[k]) in MergeMemories(iso, base, rows, known) && MemoryOk(iso, rows[k], known)
    ensures MergeMemories(iso, base, rows, known)[IdOf(rows[k])] == MemoryOf(iso, rows[k])
    decreases |rows|
  {
    var n := |rows| - 1;
    if k < n {
      MemoryInserted(iso, base, rows[..n], known, k);
      assert IdOf(rows[k]) != IdOf(rows[n]);
    }
  }

  lemma MergedMemory(iso: Iso, base: map<string, Memory>, rows: seq<Json>, known: set<string>)
    requires AllMemoriesOk(iso, rows, known) && DistinctIds(rows)
    ensures
      var merged := MergeMemories(iso, base, rows, known);
      && merged.Keys == base.Keys + PortableIds(rows)
      && (forall id :: id in base ==> merged[id] == base[id])
      && (forall k :: 0 <= k < |rows| && MemoryFate(rows[k], base.Keys) == Added ==>
            IdOf(rows[k]) in merged && MemoryOk(iso, rows[k], known) && merged[IdOf(rows[k])] == MemoryOf(iso, rows[k]))
  {
    MergedMemoryKeys(iso, base, rows, known);
    var merged := MergeMemories(iso, base, rows, known);
    forall id | id in base
      ensures merged[id] == base[id]
    {
      MemoryKept(iso, base, rows, known, id);
    }
    forall k | 0 <= k < |rows| && MemoryFate(rows[k], base.Keys) == Added
      ensures IdOf(rows[k]) in merged && MemoryOk(iso, rows[k], known) && merged[IdOf(rows[k])] == MemoryOf(iso, rows[k])
    {
      MemoryInserted(iso, base, rows, known, k);
    }
  }

  /** A merge is the union by id: it keeps every row of the destination as it was, adds exactly the other
    * rows of the envelope but for watermarks, and leaves every memory's project in place. */
  lemma ImportIsUnionById(iso: Iso, c: Contents, payload: Json)
    requires Accepted(iso, c, payload) && Linked(c)
    ensures AllProjectsOk(iso, Rows(payload, "projects"))
    ensures AllMemoriesOk(iso, Rows(payload, "memory_items"), Known(c, payload))
    ensures
      var after := Imported(iso, c, payload);
      var projects, memories := Rows(payload, "projects"), Rows(payload, "memory_items");
      && after.projects.Keys == c.projects.Keys + Ids(projects)
      && after.memories.Keys == c.memories.Keys + PortableIds(memories)
      && (forall id :: id in c.projects ==> after.projects[id] == c.projects[id])
      && (forall id :: id in c.memories ==> after.memories[id] == c.memories[id])
      && (forall k :: 0 <= k < |projects| && IdOf(projects[k]) !in c.projects ==>
            after.projects[IdOf(projects[k])] == ProjectOf(iso, projects[k]))
      && (forall k :: 0 <= k < |memories| && MemoryFate(memories[k], c.memories.Keys) == Added ==>
            IdOf(memories[k]) in after.memories && after.memories[IdOf(memories[k])] == MemoryOf(iso, memories[k]))
    ensures Linked(Imported(iso, c, payload))
  {
    AcceptedRows(iso, c, payload);
    MergedProject(iso, c.projects, Rows(payload, "projects"));
    MergedMemory(iso, c.memories, Rows(payload, "memory_items"), Known(c, payload));
    ImportStaysLinked(iso, c, payload);
  }

  lemma ImportStaysLinked(iso: Iso, c: Contents, payload: Json)
    requires Linked(c)
    requires AllProjectsOk(iso, Rows(payload, "projects")) && DistinctIds(Rows(payload, "projects"))
    requires AllMemoriesOk(iso, Rows(payload, "memory_items"), Known(c, payload)) && DistinctIds(Rows(payload, "memory_items"))
    ensures Linked(Imported(iso, c, payload))
  {
    var rows, after := Rows(payload, "memory_items"), Imported(iso, c, payload);
    MergedProject(iso, c.projects, Rows(payload, "projects"));
    MergedMemory(iso, c.memories, rows, Known(c, payload));
    forall id | id in after.memories && after.memories[id].project.Some?
      ensures after.memories[id].project.value in after.projects
    {
      if id !in c.memories {
        var k :| 0 <= k < |rows| && Get(rows[k], "source") != Text(WATERMARK) && IdOf(rows[k]) == id;
        assert MemoryFate(rows[k], c.memories.Keys) == Added;
        assert MemoryOk(iso, rows[k], Known(c, payload));
      }
    }
  }

  // ---------- accounting ----------

  lemma {:induction false} ProjectTallies(rows: seq<Json>, existing: set<string>)
    ensures ProjectTally(rows, existing, Added) + ProjectTally(rows, existing, Skipped) == |rows|
    decreases |rows|
  {
    if rows != [] {
      ProjectTallies(rows[..|rows| - 1], existing);
    }
  }

  lemma {:induction false} MemoryTallies(rows: seq<Json>, existing: set<string>)
    ensures MemoryTally(rows, existing, Added) + MemoryTally(rows, existing, Skipped)
          + MemoryTally(rows, existing, Dropped) == |rows|
    ensures OversizedTally(rows, existing) <= MemoryTally(rows, existing, Added)
    decreases |rows|
  {
    if rows != [] {
      MemoryTallies(rows[..|rows| - 1], existing);
    }
  }

  lemma InsertGrows<K, V>(m: map<K, V>, key: K, value: V)
    requires key !in m
    ensures |m[key := value]| == |m| + 1
  {
    assert m[key := value].Keys == m.Keys + {key};
    assert |m[key := value].Keys| == |m[key := value]| && |m.Keys| == |m|;
  }

  lemma NotYetInserted(rows: seq<Json>)
    requires rows != [] && DistinctIds(rows)
    ensures IdOf(rows[|rows| - 1]) !in PortableIds(rows[..|rows| - 1])
  {
    var n := |rows| - 1;
    forall i | 0 <= i < n
      ensures IdOf(rows[..n][i]) != IdOf(rows[n])
    {
      assert rows[..n][i] == rows[i];
    }
  }

  lemma {:induction false} AddedIsGrowth(iso: Iso, base: map<string, Memory>, rows: seq<Json>, known: set<string>)
    requires AllMemoriesOk(iso, rows, known) && DistinctIds(rows)
    ensures |MergeMemories(iso, base, rows, known)| == |base| + MemoryTally(rows, base.Keys, Added)
    decreases |rows|
  {
    if rows != [] {
      var n := |rows| - 1;
      var before := MergeMemories(iso, base, rows[..n], known);
      AddedIsGrowth(iso, base, rows[..n], known);
      if MemoryFate(rows[n], base.Keys) == Added {
        MergedMemoryKeys(iso, base, rows[..n], known);
        NotYetInserted(rows);
        InsertGrows(before, IdOf(rows[n]), MemoryOf(iso, rows[n]));
      }
    }
  }

  /** Every row of the envelope is added, skipped or dropped, and the store grows by the rows added. */
  lemma CountsAccountForEveryRow(iso: Iso, c: Contents, payload: Json)
    requires Accepted(iso, c, payload)
    ensures
      var counts := CountsOf(c, payload);
      && counts.projectsAdded + counts.projectsSkipped == |Rows(payload, "projects")|
      && counts.memoryAdded + counts.memorySkipped + counts.watermarkDropped == |Rows(payload, "memory_items")|
    ensures AllMemoriesOk(iso, Rows(payload, "memory_items"), Known(c, payload))
    ensures |MergeMemories(iso, c.memories, Rows(payload, "memory_items"), Known(c, payload))|
         == |c.memories| + CountsOf(c, payload).memoryAdded
  {
    AcceptedRows(iso, c, payload);
    ProjectTallies(Rows(payload, "projects"), c.projects.Keys);
    MemoryTallies(Rows(payload, "memory_items"), c.memories.Keys);
    AddedIsGrowth(iso, c.memories, Rows(payload, "memory_items"), Known(c, payload));
  }

  // ---------- importing again ----------

  lemma {:induction false} NoneAddedAgain(iso: Iso, base: map<string, Memory>, rows: seq<Json>, known: set<string>)
    requires AllMemoriesOk(iso, rows, known) && PortableIds(rows) <= base.Keys
    ensures MergeMemories(iso, base, rows, known) == base && MemoryTally(rows, base.Keys, Added) == 0
    decreases |rows|
  {
    if rows != [] {
      var n := |rows| - 1;
      assert rows == rows[..n] + [rows[n]];
      PortableSnoc(rows[..n], rows[n]);
      NoneAddedAgain(iso, base, rows[..n], known);
    }
  }

  lemma {:induction false} NoProjectAddedAgain(iso: Iso, base: map<string, Project>, rows: seq<Json>)
    requires AllProjectsOk(iso, rows) && Ids(rows) <= base.Keys
    ensures MergeProjects(iso, base, rows) == base && ProjectTally(rows, base.Keys, Added) == 0
    decreases |rows|
  {
    if rows != [] {
      var n := |rows| - 1;
      assert rows == rows[..n] + [rows[n]];
      IdsSnoc(rows[..n], rows[n]);
      NoProjectAddedAgain(iso, base, rows[..n]);
    }
  }

  /** Importing an envelope a second time is accepted and adds nothing. */
  lemma ReimportAddsNothing(iso: Iso, c: Contents, payload: Json)
    requires Accepted(iso, c, payload) && Linked(c)
    ensures AllProjectsOk(iso, Rows(payload, "projects"))
    ensures AllMemoriesOk(iso, Rows(payload, "memory_items"), Known(c, payload))
    ensures
      var after := Imported(iso, c, payload);
      && Accepted(iso, after, payload)
      && AllMemoriesOk(iso, Rows(payload, "memory_items"), Known(after, payload))
      && Imported(iso, after, payload) == after
      && CountsOf(after, payload).projectsAdded == 0 && CountsOf(after, payload).memoryAdded == 0
  {
    ImportIsUnionById(iso, c, payload);
    AcceptedRows(iso, c, payload);
    var after := Imported(iso, c, payload);
    assert Known(after, payload) == Known(c, payload);
    ValidationIsExact(iso, payload, c.projects.Keys);
    ValidationIsExact(iso, payload, after.projects.Keys);
    NoProjectAddedAgain(iso, after.projects, Rows(payload, "projects"));
    NoneAddedAgain(iso, after.memories, Rows(payload, "memory_items"), Known(after, payload));
  }

  // ---------- export ----------

  function Texted(tags: seq<string>): seq<Json> {
    seq(|tags|, i requires 0 <= i < |tags| => Text(tags[i]))
  }

  function ExportProject(iso: Iso, id: string, p: Project): Json {
    Object(map["id" := Text(id), "name" := Text(p.name), "metadata" := Object(p.metadata),
               "created_at" := Text(iso.write(p.created))])
  }

  function ExportMemory(iso: Iso, id: string, m: Memory): Json {
    Object(map["id" := Text(id), "content" := Text(m.content), "tags" := Array(Texted(m.tags)),
               "pinned" := Bool(m.pinned),
               "project_id" := if m.project.Some? then Text(m.project.value) else Null,
               "source" := Text(m.source),
               "created_at" := Text(iso.write(m.created)),
               "updated_at" := if m.updated.Some? then Text(iso.write(m.updated.value)) else Null])
  }

  /** The part of a store that an export covers: all of it, or one project and its memories. */
  function Scoped(c: Contents, scope: Option<string>): Contents {
    if scope.None? then c
    else Contents(map id | id in c.projects && id == scope.value :: c.projects[id],
                  map id | id in c.memories && c.memories[id].project == scope :: c.memories[id])
  }

  /** Without the watermark rows, which belong to one device. */
  function Portable(c: Contents): Contents {
    Contents(c.projects, map id | id in c.memories && c.memories[id].source != WATERMARK :: c.memories[id])
  }

  predicate Enumerates(order: seq<string>, keys: set<string>) {
    && (forall i :: 0 <= i < |order| ==> order[i] in keys)
    && (forall i, j :: 0 <= i < j < |order| ==> order[i] != order[j])
    && (forall key :: key in keys ==> key in order)
  }

  function ExportProjects(iso: Iso, projects: map<string, Project>, order: seq<string>): seq<Json>
    requires forall id :: id in order ==> id in projects
  {
    seq(|order|, i requires 0 <= i < |order| => ExportProject(iso, order[i], projects[order[i]]))
  }

  // The listing without its watermarks
  function Kept(memories: map<string, Memory>, order: seq<string>): (kept: seq<string>)
    decreases |order|
  {
    if order == [] then []
    else
      var id := order[|order| - 1];
      Kept(memories, order[..|order| - 1]) + (if id in memories && memories[id].source != WATERMARK then [id] else [])
  }

  function ExportMemories(iso: Iso, memories: map<string, Memory>, kept: seq<string>): seq<Json>
    requires forall id :: id in kept ==> id in memories
  {
    seq(|kept|, i requires 0 <= i < |kept| => ExportMemory(iso, kept[i], memories[kept[i]]))
  }

  lemma {:induction false} KeptEnumerates(memories: map<string, Memory>, order: seq<string>, keys: set<string>)
    requires Enumerates(order, keys)
    ensures Enumerates(Kept(memories, order), set id | id in keys && id in memories && memories[id].source != WATERMARK)
    decreases |order|
  {
    if order != [] {
      var n := |order| - 1;
      var id := order[n];
      assert order == order[..n] + [id];
      assert Enumerates(order[..n], keys - {id});
      KeptEnumerates(memories, order[..n], keys - {id});
    }
  }

  /** The envelope of a store, its rows in whatever order the store lists them. */
  function Export(iso: Iso, c: Contents, projectOrder: seq<string>, memoryOrder: seq<string>, now: int): Json
    requires Enumerates(projectOrder, c.projects.Keys) && Enumerates(memoryOrder, c.memories.Keys)
  {
    KeptEnumerates(c.memories, memoryOrder, c.memories.Keys);
    Object(map["format_version" := Int(FORMAT_VERSION), "exported_at" := Text(iso.write(now)),
               "projects" := Array(ExportProjects(iso, c.projects, projectOrder)),
               "memory_items" := Array(ExportMemories(iso, c.memories, Kept(c.memories, memoryOrder)))])
  }

  // ---------- the round trip ----------

  /** What is written reads back as the same instant. */
  ghost predicate Faithful(iso: Iso) {
    forall t :: iso.read(iso.write(t)) == Some(t)
  }

  predicate ProjectsNamed(c: Contents) {
    forall id :: id in c.projects ==> id != "" && c.projects[id].name != ""
  }

  predicate MemoriesNamed(c: Contents) {
    forall id :: id in c.memories ==> id != ""
  }

  predicate Named(c: Contents) {
    ProjectsNamed(c) && MemoriesNamed(c)
  }

  /** An empty source comes back as "import". */
  function Sourced(m: Memory): Memory {
    if m.source == "" then m.(source := "import") else m
  }

  function SourcedAll(memories: map<string, Memory>): (sourced: map<string, Memory>)
    ensures sourced.Keys == memories.Keys
  {
    map id | id in memories :: Sourced(memories[id])
  }

  function Restored(c: Contents): Contents {
    Contents(c.projects, SourcedAll(c.memories))
  }

  lemma ProjectRowTrip(iso: Iso, id: string, p: Project)
    requires Faithful(iso)
    ensures IdOf(ExportProject(iso, id, p)) == id
    ensures ProjectOk(iso, ExportProject(iso, id, p)) <==> id != "" && p.name != ""
    ensures id != "" && p.name != "" ==> ProjectOf(iso, ExportProject(iso, id, p)) == p
  {
  }

  lemma MemoryFields(iso: Iso, id: string, m: Memory)
    ensures
      var row := ExportMemory(iso, id, m);
      && row.Object?
      && Get(row, "id") == Text(id) && Get(row, "content") == Text(m.content) && Get(row, "tags") == Array(Texted(m.tags))
      && Get(row, "pinned") == Bool(m.pinned) && Get(row, "source") == Text(m.source)
      && Get(row, "project_id") == (if m.project.Some? then Text(m.project.value) else Null)
      && Get(row, "created_at") == Text(iso.write(m.created))
      && Get(row, "updated_at") == (if m.updated.Some? then Text(iso.write(m.updated.value)) else Null)
  {
    assert "pinned"[0] != "source"[0];
    assert "created_at"[0] != "updated_at"[0] && "created_at"[0] != "project_id"[0] && "updated_at"[0] != "project_id"[0];
  }

  lemma TagsTrip(tags: seq<string>)
    ensures AllText(Texted(tags)) && Texts(Texted(tags)) == tags
  {
  }

  lemma ReadBack(iso: Iso, t: int)
    requires Faithful(iso)
    ensures iso.read(iso.write(t)) == Some(t)
  {
  }

  lemma MemoryRowTrip(iso: Iso, id: string, m: Memory, known: set<string>)
    requires Faithful(iso) && (m.project.Some? ==> m.project.value in known)
    ensures IdOf(ExportMemory(iso, id, m)) == id && Get(ExportMemory(iso, id, m), "source") == Text(m.source)
    ensures MemoryOk(iso, ExportMemory(iso, id, m), known) <==> id != ""
    ensures id != "" ==> MemoryOf(iso, ExportMemory(iso, id, m)) == Sourced(m)
  {
    MemoryFields(iso, id, m);
    TagsTrip(m.tags);
    ReadBack(iso, m.created);
    if m.updated.Some? {
      ReadBack(iso, m.updated.value);
    }
    if id != "" {
      assert MemoryOk(iso, ExportMemory(iso, id, m), known);
    }
  }

  lemma IdsOfExport(iso: Iso, projects: map<string, Project>, order: seq<string>)
    requires Faithful(iso) && Enumerates(order, projects.Keys)
    ensures
      var rows := ExportProjects(iso, projects, order);
      && Ids(rows) == projects.Keys && DistinctIds(rows)
      && (AllProjectsOk(iso, rows) <==> forall id :: id in projects ==> id != "" && projects[id].name != "")
  {
    var rows := ExportProjects(iso, projects, order);
    forall i | 0 <= i < |rows|
      ensures IdOf(rows[i]) == order[i]
      ensures ProjectOk(iso, rows[i]) <==> order[i] != "" && projects[order[i]].name != ""
    {
      ProjectRowTrip(iso, order[i], projects[order[i]]);
    }
    forall id | id in projects
      ensures exists i :: 0 <= i < |rows| && order[i] == id && IdOf(rows[i]) == id
    {
      var i :| 0 <= i < |order| && order[i] == id;
      assert IdOf(rows[i]) == id;
    }
  }

  lemma IdsOfMemoryExport(iso: Iso, memories: map<string, Memory>, kept: seq<string>, known: set<string>)
    requires Faithful(iso) && Enumerates(kept, memories.Keys)
    requires forall id :: id in memories ==> memories[id].source != WATERMARK
    requires forall id :: id in memories && memories[id].project.Some? ==> memories[id].project.value in known
    ensures
      var rows := ExportMemories(iso, memories, kept);
      && PortableIds(rows) == memories.Keys && DistinctIds(rows)
      && (AllMemoriesOk(iso, rows, known) <==> forall id :: id in memories ==> id != "")
  {
    var rows := ExportMemories(iso, memories, kept);
    forall i | 0 <= i < |rows|
      ensures IdOf(rows[i]) == kept[i] && Get(rows[i], "source") != Text(WATERMARK)
      ensures MemoryOk(iso, rows[i], known) <==> kept[i] != ""
    {
      MemoryRowTrip(iso, kept[i], memories[kept[i]], known);
    }
    forall id | id in memories
      ensures exists i :: 0 <= i < |rows| && kept[i] == id && IdOf(rows[i]) == id && id in PortableIds(rows)
    {
      var i :| 0 <= i < |kept| && kept[i] == id;
      assert IdOf(rows[i]) == id;
    }
  }

  lemma ExportDropsWatermarks(iso: Iso, c: Contents, projectOrder: seq<string>, memoryOrder: seq<string>, now: int)
    requires Enumerates(projectOrder, c.projects.Keys) && Enumerates(memoryOrder, c.memories.Keys)
    ensures
      var kept, payload := Kept(c.memories, memoryOrder), Export(iso, c, projectOrder, memoryOrder, now);
      && Enumerates(kept, Portable(c).memories.Keys)
      && Structure(payload).None?
      && Rows(payload, "projects") == ExportProjects(iso, c.projects, projectOrder)
      && Rows(payload, "memory_items") == ExportMemories(iso, Portable(c).memories, kept)
  {
    KeptEnumerates(c.memories, memoryOrder, c.memories.Keys);
    assert (set id | id in c.memories.Keys && id in c.memories && c.memories[id].source != WATERMARK)
        == Portable(c).memories.Keys;
  }

  lemma ScopedIsLinked(c: Contents, scope: Option<string>)
    requires Linked(c)
    ensures Linked(Scoped(c, scope)) && Linked(Portable(Scoped(c, scope)))
  {
  }

  lemma SameMap<K, V>(a: map<K, V>, b: map<K, V>)
    requires a.Keys == b.Keys && forall key :: key in a ==> a[key] == b[key]
    ensures a == b
  {
  }

  // Rows that read as the projects of a store rebuild it in an empty one
  lemma RebuiltProjects(iso: Iso, rows: seq<Json>, projects: map<string, Project>)
    requires AllProjectsOk(iso, rows) && DistinctIds(rows) && Ids(rows) == projects.Keys
    requires forall k :: 0 <= k < |rows| ==> IdOf(rows[k]) in projects && ProjectOf(iso, rows[k]) == projects[IdOf(rows[k])]
    ensures MergeProjects(iso, map[], rows) == projects
  {
    var none: map<string, Project> := map[];
    var merged := MergeProjects(iso, none, rows);
    MergedProjectKeys(iso, none, rows);
    assert merged.Keys == projects.Keys;
    forall id | id in merged
      ensures merged[id] == projects[id]
    {
      var k :| 0 <= k < |rows| && IdOf(rows[k]) == id;
      ProjectInserted(iso, none, rows, k);
    }
    SameMap(merged, projects);
  }

  // The row is no watermark, and reads as the memory of its id
  ghost predicate ReadsAs(iso: Iso, row: Json, known: set<string>, memories: map<string, Memory>) {
    && MemoryFate(row, {}) == Added && MemoryOk(iso, row, known)
    && IdOf(row) in memories && MemoryOf(iso, row) == memories[IdOf(row)]
  }

  lemma ExportedReads(iso: Iso, id: string, m: Memory, known: set<string>, memories: map<string, Memory>)
    requires Faithful(iso) && (m.project.Some? ==> m.project.value in known)
    requires id != "" && m.source != WATERMARK && id in memories && memories[id] == Sourced(m)
    ensures ReadsAs(iso, ExportMemory(iso, id, m), known, memories)
  {
    MemoryRowTrip(iso, id, m, known);
  }

  lemma RebuiltMemories(iso: Iso, rows: seq<Json>, known: set<string>, memories: map<string, Memory>)
    requires AllMemoriesOk(iso, rows, known) && DistinctIds(rows) && PortableIds(rows) == memories.Keys
    requires AllRead(iso, rows, known, memories)
    ensures MergeMemories(iso, map[], rows, known) == memories
  {
    var none: map<string, Memory> := map[];
    var merged := MergeMemories(iso, none, rows, known);
    MergedMemoryKeys(iso, none, rows, known);
    assert merged.Keys == memories.Keys;
    assert none.Keys == {};
    forall id | id in merged
      ensures merged[id] == memories[id]
    {
      var k :| 0 <= k < |rows| && Get(rows[k], "source") != Text(WATERMARK) && IdOf(rows[k]) == id;
      MemoryInserted(iso, none, rows, known, k);
    }
    SameMap(merged, memories);
  }

  ghost predicate AllRead(iso: Iso, rows: seq<Json>, known: set<string>, memories: map<string, Memory>) {
    forall k :: 0 <= k < |rows| ==> ReadsAs(iso, rows[k], known, memories)
  }

  lemma ExportReads(iso: Iso, memories: map<string, Memory>, kept: seq<string>, known: set<string>)
    requires Faithful(iso) && Enumerates(kept, memories.Keys)
    requires forall id :: id in memories ==> id != "" && memories[id].source != WATERMARK
    requires forall id :: id in memories && memories[id].project.Some? ==> memories[id].project.value in known
    ensures AllRead(iso, ExportMemories(iso, memories, kept), known, SourcedAll(memories))
  {
    forall k | 0 <= k < |kept|
      ensures ReadsAs(iso, ExportMemory(iso, kept[k], memories[kept[k]]), known, SourcedAll(memories))
    {
      ExportedReads(iso, kept[k], memories[kept[k]], known, SourcedAll(memories));
    }
  }

  lemma RestoredProjects(iso: Iso, projects: map<string, Project>, order: seq<string>)
    requires Faithful(iso) && Enumerates(order, projects.Keys)
    requires forall id :: id in projects ==> id != "" && projects[id].name != ""
    requires AllProjectsOk(iso, ExportProjects(iso, projects, order)) && DistinctIds(ExportProjects(iso, projects, order))
    requires Ids(ExportProjects(iso, projects, order)) == projects.Keys
    ensures MergeProjects(iso, map[], ExportProjects(iso, projects, order)) == projects
  {
    var rows := ExportProjects(iso, projects, order);
    forall k | 0 <= k < |rows|
      ensures IdOf(rows[k]) in projects && ProjectOf(iso, rows[k]) == projects[IdOf(rows[k])]
    {
      ProjectRowTrip(iso, order[k], projects[order[k]]);
    }
    RebuiltProjects(iso, rows, projects);
  }

  const EMPTY := Contents(map[], map[])

  lemma RowsAreAccepted(iso: Iso, payload: Json, ids: set<string>, projectsOk: bool, memoriesOk: bool)
    requires Structure(payload).None? && Ids(Rows(payload, "projects")) == ids
    requires DistinctIds(Rows(payload, "projects")) && DistinctIds(Rows(payload, "memory_items"))
    requires AllProjectsOk(iso, Rows(payload, "projects")) <==> projectsOk
    requires AllMemoriesOk(iso, Rows(payload, "memory_items"), ids) <==> memoriesOk
    ensures Validate(iso, payload, {}).None? <==> projectsOk && memoriesOk
  {
    assert {} + ids == ids;
    ValidationIsExact(iso, payload, {});
  }

  lemma ExportedProjects(iso: Iso, c: Contents, projectOrder: seq<string>, memoryOrder: seq<string>, now: int)
    requires Faithful(iso)
    requires Enumerates(projectOrder, c.projects.Keys) && Enumerates(memoryOrder, c.memories.Keys)
    ensures
      var rows := Rows(Export(iso, c, projectOrder, memoryOrder, now), "projects");
      && Ids(rows) == c.projects.Keys && DistinctIds(rows)
      && (AllProjectsOk(iso, rows) <==> ProjectsNamed(c))
  {
    ExportDropsWatermarks(iso, c, projectOrder, memoryOrder, now);
    IdsOfExport(iso, c.projects, projectOrder);
  }

  lemma ExportedMemories(iso: Iso, c: Contents, projectOrder: seq<string>, memoryOrder: seq<string>, now: int)
    requires Faithful(iso) && Linked(Portable(c))
    requires Enumerates(projectOrder, c.projects.Keys) && Enumerates(memoryOrder, c.memories.Keys)
    ensures
      var rows := Rows(Export(iso, c, projectOrder, memoryOrder, now), "memory_items");
      && PortableIds(rows) == Portable(c).memories.Keys && DistinctIds(rows)
      && (AllMemoriesOk(iso, rows, c.projects.Keys) <==> MemoriesNamed(Portable(c)))
  {
    ExportDropsWatermarks(iso, c, projectOrder, memoryOrder, now);
    IdsOfMemoryExport(iso, Portable(c).memories, Kept(c.memories, memoryOrder), c.projects.Keys);
  }

  lemma ExportIsStructured(iso: Iso, c: Contents, projectOrder: seq<string>, memoryOrder: seq<string>, now: int)
    requires Enumerates(projectOrder, c.projects.Keys) && Enumerates(memoryOrder, c.memories.Keys)
    ensures Structure(Export(iso, c, projectOrder, memoryOrder, now)).None?
  {
    ExportDropsWatermarks(iso, c, projectOrder, memoryOrder, now);
  }

  lemma AcceptedPart(iso: Iso, c: Contents, projectOrder: seq<string>, memoryOrder: seq<string>, now: int)
    requires Faithful(iso) && Linked(Portable(c))
    requires Enumerates(projectOrder, c.projects.Keys) && Enumerates(memoryOrder, c.memories.Keys)
    ensures Validate(iso, Export(iso, c, projectOrder, memoryOrder, now), {}).None? <==> Named(Portable(c))
  {
    ExportedProjects(iso, c, projectOrder, memoryOrder, now);
    ExportedMemories(iso, c, projectOrder, memoryOrder, now);
    ExportIsStructured(iso, c, projectOrder, memoryOrder, now);
    RowsAreAccepted(iso, Export(iso, c, projectOrder, memoryOrder, now), c.projects.Keys,
                    ProjectsNamed(c), MemoriesNamed(Portable(c)));
  }

  /** An export, of everything or of one project, is accepted by an empty store exactly when its ids and
    * project names are not empty. */
  lemma ExportIsAcceptedWhenNamed(iso: Iso, c: Contents, scope: Option<string>,
                                  projectOrder: seq<string>, memoryOrder: seq<string>, now: int)
    requires Faithful(iso) && Linked(c)
    requires Enumerates(projectOrder, Scoped(c, scope).projects.Keys)
    requires Enumerates(memoryOrder, Scoped(c, scope).memories.Keys)
    ensures Accepted(iso, EMPTY, Export(iso, Scoped(c, scope), projectOrder, memoryOrder, now))
       <==> Named(Portable(Scoped(c, scope)))
  {
    ScopedIsLinked(c, scope);
    AcceptedPart(iso, Scoped(c, scope), projectOrder, memoryOrder, now);
    assert EMPTY.projects.Keys == {};
  }

  /** The round trip: an empty store that imports the export holds every project and memory of the original
    * but for watermark rows, and differs from it only in sources that were empty. */
  lemma ImportUndoesExport(iso: Iso, c: Contents, scope: Option<string>,
                           projectOrder: seq<string>, memoryOrder: seq<string>, now: int)
    requires Faithful(iso) && Linked(c) && Named(Portable(Scoped(c, scope)))
    requires Enumerates(projectOrder, Scoped(c, scope).projects.Keys)
    requires Enumerates(memoryOrder, Scoped(c, scope).memories.Keys)
    ensures
      var payload := Export(iso, Scoped(c, scope), projectOrder, memoryOrder, now);
      && AllProjectsOk(iso, Rows(payload, "projects"))
      && AllMemoriesOk(iso, Rows(payload, "memory_items"), Known(EMPTY, payload))
      && Imported(iso, EMPTY, payload) == Restored(Portable(Scoped(c, scope)))
  {
    ScopedIsLinked(c, scope);
    RestoredPart(iso, Scoped(c, scope), projectOrder, memoryOrder, now);
  }

  lemma RestoredPart(iso: Iso, c: Contents, projectOrder: seq<string>, memoryOrder: seq<string>, now: int)
    requires Faithful(iso) && Linked(Portable(c)) && Named(Portable(c))
    requires Enumerates(projectOrder, c.projects.Keys) && Enumerates(memoryOrder, c.memories.Keys)
    ensures
      var payload := Export(iso, c, projectOrder, memoryOrder, now);
      && AllProjectsOk(iso, Rows(payload, "projects"))
      && AllMemoriesOk(iso, Rows(payload, "memory_items"), Known(EMPTY, payload))
      && Imported(iso, EMPTY, payload) == Restored(Portable(c))
  {
    var payload := Export(iso, c, projectOrder, memoryOrder, now);
    AcceptedPart(iso, c, projectOrder, memoryOrder, now);
    assert EMPTY.projects.Keys == {};
    AcceptedRows(iso, EMPTY, payload);
    ExportedProjects(iso, c, projectOrder, memoryOrder, now);
    ExportedMemories(iso, c, projectOrder, memoryOrder, now);
    assert Known(EMPTY, payload) == c.projects.Keys;
    ExportDropsWatermarks(iso, c, projectOrder, memoryOrder, now);
    RestoredProjects(iso, c.projects, projectOrder);
    ExportReads(iso, Portable(c).memories, Kept(c.memories, memoryOrder), c.projects.Keys);
    RebuiltMemories(iso, Rows(payload, "memory_items"), c.projects.Keys, SourcedAll(Portable(c).memories));
  }

  /** So the round trip is exact for exactly the stores without an empty source. */
  lemma RestoredIsExact(c: Contents)
    ensures Restored(c) == c <==> forall id :: id in c.memories ==> c.memories[id].source != ""
  {
    if Restored(c) == c {
      forall id | id in c.memories
        ensures c.memories[id].source != ""
      {
        assert Restored(c).memories[id] == Sourced(c.memories[id]);
      }
    } else {
      assert exists id :: id in c.memories && Sourced(c.memories[id]) != c.memories[id];
    }
  }
}
