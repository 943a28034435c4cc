/** The export envelope and its import: validation of the whole document before any write, then a union by
  * id. Documents are JSON values; ISO 8601 timestamps are read and written by a pair of functions, where
  * reading gives the instant of an aware timestamp and nothing for any other text. */
module Envelope {
  import opened Common

  datatype Json =
    | Null
    | Bool(b: bool)
    | Int(n: int)
    | Decimal(d: real)
    | Text(s: string)
    | Array(items: seq<Json>)
    | Object(fields: map<string, Json>)

  datatype Iso = Iso(read: string -> Option<int>, write: int -> string)

  datatype Project = Project(name: string, metadata: map<string, Json>, created: int)

  datatype Memory = Memory(
    content: string,
    tags: seq<string>,
    pinned: bool,
    project: Option<string>,
    source: string,
    created: int,
    updated: Option<int>)

  const FORMAT_VERSION := 1
  const WATERMARK := "git-onboard-watermark"
  const MAX_CONTENT := 100000

  // ---------- reading rows ----------

  function Get(row: Json, key: string): Json {
    if row.Object? && key in row.fields then row.fields[key] else Null
  }

  predicate NonEmptyText(j: Json) {
    j.Text? && j.s != ""
  }

  predicate IsTime(iso: Iso, j: Json) {
    j.Text? && iso.read(j.s).Some?
  }

  predicate AllText(items: seq<Json>) {
    forall i :: 0 <= i < |items| ==> items[i].Text?
  }

  predicate ProjectOk(iso: Iso, row: Json) {
    && row.Object?
    && NonEmptyText(Get(row, "id")) && NonEmptyText(Get(row, "name"))
    && IsTime(iso, Get(row, "created_at"))
    && (Get(row, "metadata").Null? || Get(row, "metadata").Object?)
  }

  // Everything about a memory row but whether its project exists
  predicate MemoryReads(iso: Iso, row: Json) {
    && row.Object?
    && NonEmptyText(Get(row, "id"))
    && Get(row, "content").Text?
    && IsTime(iso, Get(row, "created_at"))
    && (Get(row, "updated_at").Null? || IsTime(iso, Get(row, "updated_at")))
    && (Get(row, "tags").Null? || (Get(row, "tags").Array? && AllText(Get(row, "tags").items)))
    && (Get(row, "source").Null? || Get(row, "source").Text?)
    && (Get(row, "project_id").Null? || Get(row, "project_id").Text?)
  }

  predicate MemoryOk(iso: Iso, row: Json, known: set<string>) {
    MemoryReads(iso, row) && (Get(row, "project_id").Text? ==> Get(row, "project_id").s in known)
  }

  function IdOf(row: Json): string {
    if Get(row, "id").Text? then Get(row, "id").s else ""
  }

  function Ids(rows: seq<Json>): set<string> {
    set i | 0 <= i < |rows| :: IdOf(rows[i])
  }

  // Python's truth value
  predicate Truthy(j: Json) {
    match j
    case Null => false
    case Bool(b) => b
    case Int(n) => n != 0
    case Decimal(d) => d != 0.0
    case Text(s) => s != ""
    case Array(items) => items != []
    case Object(fields) => fields != map[]
  }

  function TimeOf(iso: Iso, j: Json): int
    requires IsTime(iso, j)
  {
    iso.read(j.s).value
  }

  function ProjectOf(iso: Iso, row: Json): Project
    requires ProjectOk(iso, row)
  {
    Project(Get(row, "name").s,
            if Get(row, "metadata").Object? then Get(row, "metadata").fields else map[],
            TimeOf(iso, Get(row, "created_at")))
  }

  function Texts(items: seq<Json>): seq<string>
    requires AllText(items)
  {
    seq(|items|, i requires 0 <= i < |items| => items[i].s)
  }

  function MemoryOf(iso: Iso, row: Json): Memory
    requires MemoryReads(iso, row)
  {
    Memory(Get(row, "content").s,
           if Get(row, "tags").Array? then Texts(Get(row, "tags").items) else [],
           Truthy(Get(row, "pinned")),
           if Get(row, "project_id").Text? then Some(Get(row, "project_id").s) else None,
           if NonEmptyText(Get(row, "source")) then Get(row, "source").s else "import",
           TimeOf(iso, Get(row, "created_at")),
           if Get(row, "updated_at").Null? then None else Some(TimeOf(iso, Get(row, "updated_at"))))
  }

  // ---------- validation ----------

  datatype Error =
    | BadMode | NotAnObject | NotEmpty | BadVersion
    | MissingArray(key: string) | NotAnArray(key: string)
    | BadRow(collection: string, index: nat)

  /** The first project row at or after `i` that is malformed or repeats an id. */
  function CheckProjects(iso: Iso, rows: seq<Json>, seen: set<string>, i: nat): Option<Error>
    decreases |rows| - i
  {
    if i >= |rows| then None
    else if !ProjectOk(iso, rows[i]) || IdOf(rows[i]) in seen then Some(BadRow("projects", i))
    else CheckProjects(iso, rows, seen + {IdOf(rows[i])}, i + 1)
  }

  function CheckMemories(iso: Iso, rows: seq<Json>, known: set<string>, seen: set<string>, i: nat): Option<Error>
    decreases |rows| - i
  {
    if i >= |rows| then None
    else if !MemoryOk(iso, rows[i], known) || IdOf(rows[i]) in seen then Some(BadRow("memory_items", i))
    else CheckMemories(iso, rows, known, seen + {IdOf(rows[i])}, i + 1)
  }

  function Structure(payload: Json): Option<Error> {
    if Get(payload, "format_version") != Int(FORMAT_VERSION) then Some(BadVersion)
    else if !(payload.Object? && "projects" in payload.fields) then Some(MissingArray("projects"))
    else if !Get(payload, "projects").Array? then Some(NotAnArray("projects"))
    else if !("memory_items" in payload.fields) then Some(MissingArray("memory_items"))
    else if !Get(payload, "memory_items").Array? then Some(NotAnArray("memory_items"))
    else None
  }

  function Rows(payload: Json, key: string): seq<Json> {
    if Get(payload, key).Array? then Get(payload, key).items else []
  }

  /** The one error an envelope is refused with, or none. */
  function Validate(iso: Iso, payload: Json, existing: set<string>): Option<Error> {
    var projects := Rows(payload, "projects");
    if Structure(payload).Some? then Structure(payload)
    else if CheckProjects(iso, projects, {}, 0).Some? then CheckProjects(iso, projects, {}, 0)
    else CheckMemories(iso, Rows(payload, "memory_items"), existing + Ids(projects), {}, 0)
  }

  method ValidateEnvelope(iso: Iso, payload: Json, existing: set<string>) returns (refusal: Option<Error>)
    requires payload.Object?
    ensures refusal == Validate(iso, payload, existing)
  {
    if Get(payload, "format_version") != Int(FORMAT_VERSION) {
      return Some(BadVersion);
    }
    if "projects" !in payload.fields {
      return Some(MissingArray("projects"));
    }
    if !Get(payload, "projects").Array? {
      return Some(NotAnArray("projects"));
    }
    if "memory_items" !in payload.fields {
      return Some(MissingArray("memory_items"));
    }
    if !Get(payload, "memory_items").Array? {
      return Some(NotAnArray("memory_items"));
    }
    var projects, memories := Get(payload, "projects").items, Get(payload, "memory_items").items;
    var envelopeIds: set<string> := {};
    for i := 0 to |projects|
      invariant CheckProjects(iso, projects, {}, 0) == CheckProjects(iso, projects, envelopeIds, i)
      invariant envelopeIds == Ids(projects[..i])
    {
      assert projects[..i + 1] == projects[..i] + [projects[i]];
      IdsSnoc(projects[..i], projects[i]);
      if !ProjectOk(iso, projects[i]) {
        return Some(BadRow("projects", i));
      }
      if IdOf(projects[i]) in envelopeIds {
        return Some(BadRow("projects", i));
      }
      envelopeIds := envelopeIds + {IdOf(projects[i])};
    }
    assert projects[..|projects|] == projects;
    var known := existing + envelopeIds;
    var seen: set<string> := {};
    for i := 0 to |memories|
      invariant CheckMemories(iso, memories, known, {}, 0) == CheckMemories(iso, memories, known, seen, i)
    {
      if !MemoryOk(iso, memories[i], known) {
        return Some(BadRow("memory_items", i));
      }
      if IdOf(memories[i]) in seen {
        return Some(BadRow("memory_items", i));
      }
      seen := seen + {IdOf(memories[i])};
    }
    return None;
  }

  lemma IdsSnoc(rows: seq<Json>, row: Json)
    ensures Ids(rows + [row]) == Ids(rows) + {IdOf(row)}
  {
    var all := rows + [row];
    assert forall i :: 0 <= i < |rows| ==> all[i] == rows[i];
    assert all[|rows|] == row;
    forall id | id in Ids(rows) + {IdOf(row)}
      ensures id in Ids(all)
    {
      if id in Ids(rows) {
        var i :| 0 <= i < |rows| && IdOf(rows[i]) == id;
        assert IdOf(all[i]) == id;
      } else {
        assert IdOf(all[|rows|]) == id;
      }
    }
  }

  // ---------- the union ----------

  datatype Fate = Added | Skipped | Dropped

  function ProjectFate(row: Json, existing: set<string>): Fate {
    if IdOf(row) in existing then Skipped else Added
  }

  function MemoryFate(row: Json, existing: set<string>): Fate {
    if Get(row, "source") == Text(WATERMARK) then Dropped
    else if IdOf(row) in existing then Skipped
    else Added
  }

  predicate AllProjectsOk(iso: Iso, rows: seq<Json>) {
    forall i :: 0 <= i < |rows| ==> ProjectOk(iso, rows[i])
  }

  predicate AllMemoriesOk(iso: Iso, rows: seq<Json>, known: set<string>) {
    forall i :: 0 <= i < |rows| ==> MemoryOk(iso, rows[i], known)
  }

  function MergeProjects(iso: Iso, base: map<string, Project>, rows: seq<Json>): map<string, Project>
    requires AllProjectsOk(iso, rows)
    decreases |rows|
  {
    if rows == [] then base
    else
      var n := |rows| - 1;
      var merged := MergeProjects(iso, base, rows[..n]);
      if ProjectFate(rows[n], base.Keys) == Added then merged[IdOf(rows[n]) := ProjectOf(iso, rows[n])] else merged
  }

  function MergeMemories(iso: Iso, base: map<string, Memory>, rows: seq<Json>, known: set<string>): map<string, Memory>
    requires AllMemoriesOk(iso, rows, known)
    decreases |rows|
  {
    if rows == [] then base
    else
      var n := |rows| - 1;
      var merged := MergeMemories(iso, base, rows[..n], known);
      if MemoryFate(rows[n], base.Keys) == Added then merged[IdOf(rows[n]) := MemoryOf(iso, rows[n])] else merged
  }

  function ProjectTally(rows: seq<Json>, existing: set<string>, fate: Fate): nat
    decreases |rows|
  {
    if rows == [] then 0
    else ProjectTally(rows[..|rows| - 1], existing, fate)
         + (if ProjectFate(rows[|rows| - 1], existing) == fate then 1 else 0)
  }

  function MemoryTally(rows: seq<Json>, existing: set<string>, fate: Fate): nat
    decreases |rows|
  {
    if rows == [] then 0
    else MemoryTally(rows[..|rows| - 1], existing, fate)
         + (if MemoryFate(rows[|rows| - 1], existing) == fate then 1 else 0)
  }

  function OversizedTally(rows: seq<Json>, existing: set<string>): nat
    decreases |rows|
  {
    if rows == [] then 0
    else
      var row := rows[|rows| - 1];
      OversizedTally(rows[..|rows| - 1], existing)
      + (if MemoryFate(row, existing) == Added && Get(row, "content").Text? && |Get(row, "content").s| > MAX_CONTENT
         then 1 else 0)
  }

  // One more row
  lemma MemorySnoc(iso: Iso, base: map<string, Memory>, rows: seq<Json>, i: nat, known: set<string>)
    requires i < |rows| && AllMemoriesOk(iso, rows, known)
    ensures AllMemoriesOk(iso, rows[..i], known) && AllMemoriesOk(iso, rows[..i + 1], known) && MemoryOk(iso, rows[i], known)
    ensures Ids(rows[..i + 1]) == Ids(rows[..i]) + {IdOf(rows[i])}
    ensures MergeMemories(iso, base, rows[..i + 1], known)
         == (var merged := MergeMemories(iso, base, rows[..i], known);
             if MemoryFate(rows[i], base.Keys) == Added then merged[IdOf(rows[i]) := MemoryOf(iso, rows[i])] else merged)
    ensures forall fate ::
      MemoryTally(rows[..i + 1], base.Keys, fate)
      == MemoryTally(rows[..i], base.Keys, fate) + (if MemoryFate(rows[i], base.Keys) == fate then 1 else 0)
    ensures OversizedTally(rows[..i + 1], base.Keys)
         == OversizedTally(rows[..i], base.Keys)
            + (if MemoryFate(rows[i], base.Keys) == Added && Get(rows[i], "content").Text? && |Get(rows[i], "content").s| > MAX_CONTENT
               then 1 else 0)
  {
    assert rows[..i + 1][..i] == rows[..i];
    assert rows[..i + 1] == rows[..i] + [rows[i]];
    IdsSnoc(rows[..i], rows[i]);
  }

  datatype Counts = Counts(
    projectsAdded: nat, projectsSkipped: nat,
    memoryAdded: nat, memorySkipped: nat, watermarkDropped: nat, oversized: nat)

  datatype Contents = Contents(projects: map<string, Project>, memories: map<string, Memory>)

  /** Every memory's project exists. */
  ghost predicate Linked(c: Contents) {
    forall id :: id in c.memories && c.memories[id].project.Some? ==> c.memories[id].project.value in c.projects
  }

  function Refusal(iso: Iso, c: Contents, payload: Json, mode: string): Option<Error> {
    if mode != "merge" && mode != "replace" then Some(BadMode)
    else if !payload.Object? then Some(NotAnObject)
    else if mode == "replace" && (c.projects != map[] || c.memories != map[]) then Some(NotEmpty)
    else Validate(iso, payload, c.projects.Keys)
  }

  function Known(c: Contents, payload: Json): set<string> {
    c.projects.Keys + Ids(Rows(payload, "projects"))
  }

  /** What an accepted import leaves in the store. */
  function Imported(iso: Iso, c: Contents, payload: Json): Contents
    requires AllProjectsOk(iso, Rows(payload, "projects"))
    requires AllMemoriesOk(iso, Rows(payload, "memory_items"), Known(c, payload))
  {
    Contents(MergeProjects(iso, c.projects, Rows(payload, "projects")),
             MergeMemories(iso, c.memories, Rows(payload, "memory_items"), Known(c, payload)))
  }

  function CountsOf(c: Contents, payload: Json): Counts {
    var projects, memories := Rows(payload, "projects"), Rows(payload, "memory_items");
    Counts(ProjectTally(projects, c.projects.Keys, Added), ProjectTally(projects, c.projects.Keys, Skipped),
           MemoryTally(memories, c.memories.Keys, Added), MemoryTally(memories, c.memories.Keys, Skipped),
           MemoryTally(memories, c.memories.Keys, Dropped), OversizedTally(memories, c.memories.Keys))
  }

  // ---------- what validation establishes ----------

  predicate DistinctIds(rows: seq<Json>) {
    forall i, j :: 0 <= i < j < |rows| ==> IdOf(rows[i]) != IdOf(rows[j])
  }

  ghost predicate FineFrom(ok: Json -> bool, rows: seq<Json>, seen: set<string>, i: nat) {
    && (forall k :: i <= k < |rows| ==> ok(rows[k]) && IdOf(rows[k]) !in seen)
    && (forall j, k :: i <= j < k < |rows| ==> IdOf(rows[j]) != IdOf(rows[k]))
  }

  lemma FineStep(ok: Json -> bool, rows: seq<Json>, seen: set<string>, i: nat)
    requires i < |rows|
    ensures FineFrom(ok, rows, seen, i)
       <==> ok(rows[i]) && IdOf(rows[i]) !in seen && FineFrom(ok, rows, seen + {IdOf(rows[i])}, i + 1)
  {
  }

  lemma {:induction false} ProjectsCheck(iso: Iso, rows: seq<Json>, seen: set<string>, i: nat)
    ensures CheckProjects(iso, rows, seen, i).None? <==> FineFrom(row => ProjectOk(iso, row), rows, seen, i)
    decreases |rows| - i
  {
    if i < |rows| {
      FineStep(row => ProjectOk(iso, row), rows, seen, i);
      ProjectsCheck(iso, rows, seen + {IdOf(rows[i])}, i + 1);
    }
  }

  lemma {:induction false} MemoriesCheck(iso: Iso, rows: seq<Json>, known: set<string>, seen: set<string>, i: nat)
    ensures CheckMemories(iso, rows, known, seen, i).None?
       <==> FineFrom(row => MemoryOk(iso, row, known), rows, seen, i)
    decreases |rows| - i
  {
    if i < |rows| {
      FineStep(row => MemoryOk(iso, row, known), rows, seen, i);
      MemoriesCheck(iso, rows, known, seen + {IdOf(rows[i])}, i + 1);
    }
  }

  /** An envelope is accepted exactly when it has the two arrays of this version, every row is well formed,
    * no id repeats, and every reference is to a project of the store or of the envelope. */
  lemma ValidationIsExact(iso: Iso, payload: Json, existing: set<string>)
    ensures
      var projects, memories := Rows(payload, "projects"), Rows(payload, "memory_items");
      Validate(iso, payload, existing).None?
      <==> (&& Structure(payload).None?
            && AllProjectsOk(iso, projects) && DistinctIds(projects)
            && AllMemoriesOk(iso, memories, existing + Ids(projects)) && DistinctIds(memories))
  {
    var projects, memories := Rows(payload, "projects"), Rows(payload, "memory_items");
    ProjectsCheck(iso, projects, {}, 0);
    MemoriesCheck(iso, memories, existing + Ids(projects), {}, 0);
  }

  // ---------- the store ----------

  class Store {
    var projects: map<string, Project>
    var memories: map<string, Memory>

    ghost function Holds(): Contents
      reads this
    {
      Contents(projects, memories)
    }

    constructor ()
      ensures Holds() == Contents(map[], map[])
    {
      projects, memories := map[], map[];
    }

    /** Refused when the id is taken. */
    method AddProject(id: string, p: Project) returns (ok: bool)
      modifies `projects
      ensures ok <==> id !in old(projects)
      ensures projects == if ok then old(projects)[id := p] else old(projects)
    {
      ok := id !in projects;
      if ok {
        projects := projects[id := p];
      }
    }

    /** Refused when the id is taken or the project does not exist. */
    method AddMemory(id: string, m: Memory) returns (ok: bool)
      modifies `memories
      ensures ok <==> id !in old(memories) && (m.project.Some? ==> m.project.value in projects)
      ensures memories == if ok then old(memories)[id := m] else old(memories)
    {
      ok := id !in memories && (m.project.None? || m.project.value in projects);
      if ok {
        memories := memories[id := m];
      }
    }

    method ImportProjects(iso: Iso, rows: seq<Json>) returns (added: nat, skipped: nat)
      requires AllProjectsOk(iso, rows) && DistinctIds(rows)
      modifies `projects
      ensures projects == MergeProjects(iso, old(projects), rows)
      ensures added == ProjectTally(rows, old(projects).Keys, Added)
      ensures skipped == ProjectTally(rows, old(projects).Keys, Skipped)
    {
      var existing := projects.Keys;
      added, skipped := 0, 0;
      for i := 0 to |rows|
        invariant projects == MergeProjects(iso, old(projects), rows[..i])
        invariant forall id :: id in projects ==> id in existing || id in Ids(rows[..i])
        invariant added == ProjectTally(rows[..i], existing, Added)
        invariant skipped == ProjectTally(rows[..i], existing, Skipped)
      {
        assert rows[..i + 1][..i] == rows[..i];
        assert rows[..i + 1] == rows[..i] + [rows[i]];
        IdsSnoc(rows[..i], rows[i]);
        if IdOf(rows[i]) in existing {
          skipped := skipped + 1;
          continue;
        }
        assert IdOf(rows[i]) !in Ids(rows[..i]);
        var ok := AddProject(IdOf(rows[i]), ProjectOf(iso, rows[i]));
        assert ok;
        added := added + 1;
      }
      assert rows[..|rows|] == rows;
    }

    method ImportMemories(iso: Iso, rows: seq<Json>, ghost known: set<string>)
      returns (added: nat, skipped: nat, dropped: nat, oversized: nat)
      requires AllMemoriesOk(iso, rows, known) && DistinctIds(rows) && known <= projects.Keys
      modifies `memories
      ensures memories == MergeMemories(iso, old(memories), rows, known)
      ensures added == MemoryTally(rows, old(memories).Keys, Added)
      ensures skipped == MemoryTally(rows, old(memories).Keys, Skipped)
      ensures dropped == MemoryTally(rows, old(memories).Keys, Dropped)
      ensures oversized == OversizedTally(rows, old(memories).Keys)
    {
      var existing := memories.Keys;
      added, skipped, dropped, oversized := 0, 0, 0, 0;
      for i := 0 to |rows|
        invariant memories == MergeMemories(iso, old(memories), rows[..i], known)
        invariant forall id :: id in memories ==> id in existing || id in Ids(rows[..i])
        invariant added == MemoryTally(rows[..i], existing, Added)
        invariant skipped == MemoryTally(rows[..i], existing, Skipped)
        invariant dropped == MemoryTally(rows[..i], existing, Dropped)
        invariant oversized == OversizedTally(rows[..i], existing)
      {
        MemorySnoc(iso, old(memories), rows, i, known);
        if Get(rows[i], "source") == Text(WATERMARK) {
          dropped := dropped + 1;
          continue;
        }
        if IdOf(rows[i]) in existing {
          skipped := skipped + 1;
          continue;
        }
        if |Get(rows[i], "content").s| > MAX_CONTENT {
          oversized := oversized + 1;
        }
        assert IdOf(rows[i]) !in Ids(rows[..i]);
        assert MemoryOk(iso, rows[i], known);
        var ok := AddMemory(IdOf(rows[i]), MemoryOf(iso, rows[i]));
        assert ok;
        added := added + 1;
      }
      assert rows[..|rows|] == rows;
    }

    /** A refused envelope changes nothing; an accepted one is merged to the last row, and no insertion can
      * fail on the way, for a repeated id or a missing project. */
    method Import(iso: Iso, payload: Json, mode: string) returns (r: Result<Counts, Error>)
      modifies this
      ensures r.Failure? ==> Refusal(iso, old(Holds()), payload, mode) == Some(r.error) && Holds() == old(Holds())
      ensures r.Success? ==>
        && Refusal(iso, old(Holds()), payload, mode).None?
        && AllProjectsOk(iso, Rows(payload, "projects"))
        && AllMemoriesOk(iso, Rows(payload, "memory_items"), Known(old(Holds()), payload))
        && Holds() == Imported(iso, old(Holds()), payload)
        && r.value == CountsOf(old(Holds()), payload)
    {
      if mode != "merge" && mode != "replace" {
        return Failure(BadMode);
      }
      if !payload.Object? {
        return Failure(NotAnObject);
      }
      if mode == "replace" && (projects != map[] || memories != map[]) {
        return Failure(NotEmpty);
      }
      var refusal := ValidateEnvelope(iso, payload, projects.Keys);
      if refusal.Some? {
        return Failure(refusal.value);
      }
      ValidationIsExact(iso, payload, projects.Keys);
      ghost var before := Holds();
      MergedProjectKeys(iso, projects, Get(payload, "projects").items);
      var projectsAdded, projectsSkipped := ImportProjects(iso, Get(payload, "projects").items);
      var memoryAdded, memorySkipped, watermarkDropped, oversized :=
        ImportMemories(iso, Get(payload, "memory_items").items, Known(before, payload));
      return Success(Counts(projectsAdded, projectsSkipped, memoryAdded, memorySkipped, watermarkDropped, oversized));
    }
  }

  lemma {:induction false} MergedProjectKeys(iso: Iso, base: map<string, Project>, rows: seq<Json>)
    requires AllProjectsOk(iso, rows)
    ensures MergeProjects(iso, base, rows).Keys == base.Keys + Ids(rows)
    decreases |rows|
  {
    if rows != [] {
      var n := |rows| - 1;
      MergedProjectKeys(iso, base, rows[..n]);
      assert rows == rows[..n] + [rows[n]];
      IdsSnoc(rows[..n], rows[n]);
    }
  }
}
