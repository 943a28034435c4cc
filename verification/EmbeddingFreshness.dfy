/** Content updates, deletes and embeds interleaved at the store's lock. */
module EmbeddingFreshness {
  import opened Common
  import opened EmbeddingStore

  // A provider call runs outside the lock, so between reading a memory's content and publishing its
  // embedding anything may happen. An update is two locked steps: write the content, then drop the vector.

  type Task = nat

  // Work that has read the store and will come back to it.
  datatype Flight =
    | Embedding(id: Id, content: Content, space: Space, revision: Revision)
    | Updating(id: Id, content: Content)

  // What the provider made of the content it was given.
  datatype Answer = Embedded(numbers: seq<real>) | TooLong | ProviderFailed

  datatype Step =
    | Add(id: Id, content: Content)
    | WriteContent(task: Task, id: Id, content: Content)  // update, first step
    | DropVector(task: Task)                              // update, second step
    | Delete(id: Id)
    | StartEmbed(task: Task, id: Id, content: Content, space: Space, revision: Revision)  // with any content, however old
    | Publish(task: Task, answer: Answer)

  // `legacy`: rows that were stale before the run (migrated, say) and that nothing has replaced yet.
  datatype System = System(data: Data, flights: map<Task, Flight>, legacy: set<Id>)

  function PublishedRow(f: Flight, answer: Answer): Option<Row>
    requires f.Embedding?
  {
    match answer
    case Embedded(numbers) => Some(Row(f.space, f.revision, HashOf(f.content), Vector(f.content, numbers)))
    case TooLong => Some(Row(f.space, f.revision, HashOf(f.content), Tombstone(f.content)))
    case ProviderFailed => None
  }

  function Next(s: System, step: Step): System {
    match step
    case Add(id, content) =>
      s.(data := Added(s.data, id, content))
    case WriteContent(task, id, content) =>
      if task in s.flights || id !in s.data.memories then s else
      s.(data := Updated(s.data, id, content), flights := s.flights[task := Updating(id, content)])
    case DropVector(task) =>
      if task !in s.flights || !s.flights[task].Updating? then s else
      var id := s.flights[task].id;
      System(Invalidated(s.data, id), s.flights - {task}, s.legacy - {id})
    case Delete(id) => s.(data := Deleted(s.data, id), legacy := s.legacy - {id})
    case StartEmbed(task, id, content, space, revision) =>
      if task in s.flights then s else s.(flights := s.flights[task := Embedding(id, content, space, revision)])
    case Publish(task, answer) =>
      if task !in s.flights || !s.flights[task].Embedding? then s else
      var f := s.flights[task];
      var row := PublishedRow(f, answer);
      var landed := row.Some? && SwapAllowed(s.data, f.id, row.value.contentHash);
      System(if row.Some? then Saved(s.data, f.id, row.value) else s.data,
             s.flights - {task},
             if landed then s.legacy - {f.id} else s.legacy)
  }

  function After(s: System, steps: seq<Step>): System
    decreases |steps|
  {
    if steps == [] then s else After(Next(s, steps[0]), steps[1..])
  }

  ghost predicate BeingUpdated(s: System, id: Id) {
    exists t :: t in s.flights && s.flights[t].Updating? && s.flights[t].id == id
  }

  ghost predicate Inv(s: System) {
    && Linked(s.data)
    && Honest(s.data)
    && (forall id | ContentStale(s.data, id) :: id in s.legacy || BeingUpdated(s, id))
  }

  lemma StillUpdating(s: System, s': System, id: Id)
    requires BeingUpdated(s, id)
    requires forall t | t in s.flights && s.flights[t].Updating? && s.flights[t].id == id ::
               t in s'.flights && s'.flights[t] == s.flights[t]
    ensures BeingUpdated(s', id)
  {
    var t :| t in s.flights && s.flights[t].Updating? && s.flights[t].id == id;
    assert t in s'.flights && s'.flights[t].Updating? && s'.flights[t].id == id;
  }

  lemma NextInv(s: System, step: Step)
    requires Inv(s)
    ensures Inv(Next(s, step))
  {
    var s' := Next(s, step);
    forall id | ContentStale(s'.data, id) ensures id in s'.legacy || BeingUpdated(s', id) {
      if step.WriteContent? && s'.data != s.data && id == step.id {
        assert s'.flights[step.task].Updating? && s'.flights[step.task].id == id;
      } else {
        assert ContentStale(s.data, id);
        if id !in s'.legacy {
          StillUpdating(s, s', id);
        }
      }
    }
  }

  lemma {:induction false} AfterInv(s: System, steps: seq<Step>)
    requires Inv(s)
    ensures Inv(After(s, steps))
    decreases |steps|
  {
    if steps != [] {
      NextInv(s, steps[0]);
      AfterInv(Next(s, steps[0]), steps[1..]);
    }
  }

  ghost predicate Start(s: System) {
    Linked(s.data) && Honest(s.data) && s.flights == map[] && s.legacy == set id | id in s.data.rows && ContentStale(s.data, id)
  }

  /** In every interleaving no embedding outlives its memory, and every stored vector or tombstone was
  computed from the content whose hash it carries. */
  lemma NoOrphansNoLies(s: System, steps: seq<Step>)
    requires Start(s)
    ensures Linked(After(s, steps).data) && Honest(After(s, steps).data)
  {
    AfterInv(s, steps);
  }

  /** What a publication stores was computed from the memory's content at that moment, and a refused one
  stores nothing. A row that was content-current stays so, whichever answer arrives, however late. */
  lemma PublishIsFresh(s: System, steps: seq<Step>, task: Task, answer: Answer)
    requires Start(s)
    ensures var now := After(s, steps);
            var next := Next(now, Publish(task, answer));
            && next.data.memories == now.data.memories
            && (forall id | id in next.data.rows && (id !in now.data.rows || next.data.rows[id] != now.data.rows[id]) ::
                  && id in now.data.memories
                  && next.data.rows[id].payload.of == now.data.memories[id]
                  && ContentCurrent(next.data, id))
            && (forall id | ContentCurrent(now.data, id) :: ContentCurrent(next.data, id))
  {
    AfterInv(s, steps);
  }

  /** What each step of an embed and of an update does to the store. A publication lands exactly when there is
  an answer and the memory still holds the content it is for, and then the row holds that answer under the
  space and revision it was asked in; an update writes the content, and later drops the row. */
  lemma StepsDo(s: System, task: Task, answer: Answer, id: Id, content: Content)
    ensures task in s.flights && s.flights[task].Embedding? ==>
              var f, next := s.flights[task], Next(s, Publish(task, answer));
              var landed := f.id in s.data.memories && s.data.memories[f.id] == f.content && !answer.ProviderFailed?;
              && next.data.memories == s.data.memories && next.flights == s.flights - {task}
              && next.data.rows.Keys == s.data.rows.Keys + (if landed then {f.id} else {})
              && (forall other | other in s.data.rows && (other != f.id || !landed) :: next.data.rows[other] == s.data.rows[other])
              && (landed && answer.Embedded? ==>
                    next.data.rows[f.id] == Row(f.space, f.revision, HashOf(f.content), Vector(f.content, answer.numbers)))
              && (landed && answer.TooLong? ==>
                    next.data.rows[f.id] == Row(f.space, f.revision, HashOf(f.content), Tombstone(f.content)))
    ensures task !in s.flights && id in s.data.memories ==>
              var next := Next(s, WriteContent(task, id, content));
              && next.data == Data(s.data.memories[id := content], s.data.rows)
              && next.flights == s.flights[task := Updating(id, content)]
              && Next(next, DropVector(task)).data == Data(s.data.memories[id := content], s.data.rows - {id})
    ensures Next(s, Delete(id)).data == Data(s.data.memories - {id}, s.data.rows - {id})
    ensures id !in s.data.memories ==> Next(s, Add(id, content)).data == Data(s.data.memories[id := content], s.data.rows)
  {
  }

  /** Only writing a memory's content can make its row stale. */
  lemma OnlyAContentWriteMakesStale(s: System, step: Step, id: Id)
    requires ContentCurrent(s.data, id) && ContentStale(Next(s, step).data, id)
    ensures step.WriteContent? && step.id == id && step.content != s.data.memories[id]
  {
  }

  /** Once both steps of an update have run, the memory's row is missing or content-current from then on,
  except while a later update of it is between its two steps. */
  lemma UpdateSettles(s: System, before: seq<Step>, task: Task, after: seq<Step>)
    requires Start(s)
    requires var now := After(s, before); task in now.flights && now.flights[task].Updating?
    ensures var now := After(s, before);
            var id := now.flights[task].id;
            var later := After(Next(now, DropVector(task)), after);
            !BeingUpdated(later, id) ==> id !in later.data.rows || ContentCurrent(later.data, id)
  {
    var now := After(s, before);
    AfterInv(s, before);
    NextInv(now, DropVector(task));
    AfterInv(Next(now, DropVector(task)), after);
    LegacyShrinks(Next(now, DropVector(task)), after);
  }

  lemma {:induction false} LegacyShrinks(s: System, steps: seq<Step>)
    ensures After(s, steps).legacy <= s.legacy
    decreases |steps|
  {
    if steps != [] {
      LegacyShrinks(Next(s, steps[0]), steps[1..]);
    }
  }

  /** Without the compare-and-swap the protocol would be wrong: an embed that started before an update
  and publishes after both of its steps would leave a stale row that nothing is going to repair. */
  lemma BlindPublicationWouldGoStale(id: Id, first: Content, second: Content, space: Space, numbers: seq<real>)
    requires first != second
    ensures var steps := [Add(id, first), StartEmbed(0, id, first, space, None), WriteContent(1, id, second), DropVector(1)];
            var now := After(System(Data(map[], map[]), map[], {}), steps);
            && 0 in now.flights && now.flights[0].Embedding?
            && var row := PublishedRow(now.flights[0], Embedded(numbers)).value;
            && var blind := now.data.(rows := now.data.rows[id := row]);
            && ContentStale(blind, id)
            && Next(now, Publish(0, Embedded(numbers))).data == now.data
  {
    var s0 := System(Data(map[], map[]), map[], {});
    var a, b, c, e := Add(id, first), StartEmbed(0, id, first, space, None), WriteContent(1, id, second), DropVector(1);
    var s1 := Next(s0, a);
    var s2 := Next(s1, b);
    var s3 := Next(s2, c);
    var s4 := Next(s3, e);
    assert [a, b, c, e][1..] == [b, c, e] && [b, c, e][1..] == [c, e] && [c, e][1..] == [e] && [e][1..] == [];
    assert After(s3, [e]) == s4;
    assert After(s2, [c, e]) == s4;
    assert After(s1, [b, c, e]) == s4;
    assert After(s0, [a, b, c, e]) == s4;
  }
}
