/** Which rows a backfill stores: for every candidate what the provider made of its content, and nothing else. */
module BackfillRows {
  import opened Common
  import opened EmbeddingStore
  import opened Backfill

  predicate SameRow(d: Data, e: Data, id: Id) {
    (id in e.rows <==> id in d.rows) && (id in d.rows ==> e.rows[id] == d.rows[id])
  }

  // The row of a candidate holds the answer for its content, under the run's space and revision.
  predicate HoldsAnswer(d: Data, t: Target, item: Item, answer: Single) {
    && item.id in d.rows
    && d.rows[item.id].space == t.space && d.rows[item.id].revision == t.revision
    && d.rows[item.id].contentHash == HashOf(item.content)
    && match answer
       case Vec(numbers) => d.rows[item.id].payload == Vector(item.content, numbers)
       case TooLong => d.rows[item.id].payload == Payload.Tombstone(item.content)
       case Fails => false
  }

  /** One candidate, whatever others do to the store just before: its row is replaced by the provider's answer
  when there is one, the write does not raise and the memory still holds the content; no other row and no
  memory is touched, and exactly one counter moves. */
  lemma WriteStores(p: Provider, w: World, t: Target, r: Run, items: seq<Item>, n: nat)
    requires n < |items|
    ensures var before, after := OneByOne(p, w, t, r, items, n), OneByOne(p, w, t, r, items, n + 1);
            var now, item := w.others(n, before.data), items[n];
            var answer := p.single(item.content);
            var stored := !answer.Fails? && !w.raises(n) && item.id in now.memories && now.memories[item.id] == item.content;
            && after.data.memories == now.memories
            && (forall id | id != item.id :: SameRow(now, after.data, id))
            && (if stored then HoldsAnswer(after.data, t, item, answer) else SameRow(now, after.data, item.id))
            && after.tally.generated == before.tally.generated + (if stored && answer.Vec? then 1 else 0)
            && after.tally.tombstoned == before.tally.tombstoned + (if stored && answer.TooLong? then 1 else 0)
            && after.tally.failed == before.tally.failed + (if answer.Fails? || w.raises(n) then 1 else 0)
            && after.tally.refused
               == before.tally.refused + (if !stored && !answer.Fails? && !w.raises(n) then 1 else 0)
  {
  }

  // ---------- a run that nobody disturbs ----------

  ghost predicate Undisturbed(w: World) {
    forall i: nat, d: Data :: w.others(i, d) == d
  }

  predicate DistinctIds(items: seq<Item>) {
    forall i, j | 0 <= i < j < |items| :: items[i].id != items[j].id
  }

  datatype Fate = Embedded | Parked | Lost

  // What becomes of the i-th candidate when the memory stays as it was listed
  function FateOf(p: Provider, w: World, items: seq<Item>, i: nat): Fate
    requires i < |items|
  {
    if w.raises(i) then Lost else
    match p.single(items[i].content)
    case Vec(_) => Embedded
    case TooLong => Parked
    case Fails => Lost
  }

  function WithFate(p: Provider, w: World, items: seq<Item>, n: nat, fate: Fate): set<nat>
    requires n <= |items|
  {
    set i | 0 <= i < n && FateOf(p, w, items, i) == fate
  }

  // What the run has done with the i-th candidate
  predicate Settled(p: Provider, w: World, t: Target, d: Data, e: Data, items: seq<Item>, i: nat)
    requires i < |items|
  {
    if FateOf(p, w, items, i) == Lost then SameRow(d, e, items[i].id)
    else HoldsAnswer(e, t, items[i], p.single(items[i].content))
  }

  predicate Unlisted(items: seq<Item>, n: nat, id: Id)
    requires n <= |items|
  {
    forall i | 0 <= i < n :: items[i].id != id
  }

  lemma OneMore(p: Provider, w: World, items: seq<Item>, n: nat, fate: Fate)
    requires n < |items|
    ensures |WithFate(p, w, items, n + 1, fate)|
         == |WithFate(p, w, items, n, fate)| + (if FateOf(p, w, items, n) == fate then 1 else 0)
  {
    var before := WithFate(p, w, items, n, fate);
    assert WithFate(p, w, items, n + 1, fate) == if FateOf(p, w, items, n) == fate then before + {n} else before;
  }

  function CountsByFate(p: Provider, w: World, items: seq<Item>, n: nat): Tally
    requires n <= |items|
  {
    Tally(|WithFate(p, w, items, n, Embedded)|, |WithFate(p, w, items, n, Lost)|, |WithFate(p, w, items, n, Parked)|, 0)
  }

  lemma MoreByFate(p: Provider, w: World, items: seq<Item>, n: nat)
    requires n < |items|
    ensures var a, b, fate := CountsByFate(p, w, items, n), CountsByFate(p, w, items, n + 1), FateOf(p, w, items, n);
            b == (match fate
                  case Embedded => a.(generated := a.generated + 1)
                  case Parked => a.(tombstoned := a.tombstoned + 1)
                  case Lost => a.(failed := a.failed + 1))
  {
    OneMore(p, w, items, n, Embedded);
    OneMore(p, w, items, n, Parked);
    OneMore(p, w, items, n, Lost);
  }

  // One candidate of an undisturbed run
  lemma UndisturbedWrite(p: Provider, w: World, t: Target, r: Run, items: seq<Item>, n: nat)
    requires Undisturbed(w) && n < |items|
    requires var before := OneByOne(p, w, t, r, items, n).data;
             items[n].id in before.memories && before.memories[items[n].id] == items[n].content
    ensures var before, after := OneByOne(p, w, t, r, items, n), OneByOne(p, w, t, r, items, n + 1);
            && after.data.memories == before.data.memories
            && (forall id | id != items[n].id :: SameRow(before.data, after.data, id))
            && Settled(p, w, t, before.data, after.data, items, n)
            && after.tally == (match FateOf(p, w, items, n)
                               case Embedded => before.tally.(generated := before.tally.generated + 1)
                               case Parked => before.tally.(tombstoned := before.tally.tombstoned + 1)
                               case Lost => before.tally.(failed := before.tally.failed + 1))
  {
    WriteStores(p, w, t, r, items, n);
    var before := OneByOne(p, w, t, r, items, n);
    assert w.others(n, before.data) == before.data;
  }

  lemma {:induction false} CountsOfRun(p: Provider, w: World, t: Target, d: Data, items: seq<Item>, n: nat)
    requires Undisturbed(w) && n <= |items| && FromMemories(items, d.memories)
    ensures var out := OneByOne(p, w, t, Run(d, Tally(0, 0, 0, 0)), items, n);
            out.data.memories == d.memories && out.tally == CountsByFate(p, w, items, n)
  {
    if n > 0 {
      CountsOfRun(p, w, t, d, items, n - 1);
      UndisturbedWrite(p, w, t, Run(d, Tally(0, 0, 0, 0)), items, n - 1);
      MoreByFate(p, w, items, n - 1);
    }
  }

  lemma StepSettles(p: Provider, w: World, t: Target, d: Data, before: Data, e: Data, items: seq<Item>, n: nat)
    requires n < |items| && DistinctIds(items)
    requires forall i | 0 <= i < n :: Settled(p, w, t, d, before, items, i)
    requires forall id | Unlisted(items, n, id) :: SameRow(d, before, id)
    requires Settled(p, w, t, before, e, items, n)
    requires forall id | id != items[n].id :: SameRow(before, e, id)
    ensures forall i | 0 <= i < n + 1 :: Settled(p, w, t, d, e, items, i)
    ensures forall id | Unlisted(items, n + 1, id) :: SameRow(d, e, id)
  {
    forall i | 0 <= i < n + 1
      ensures Settled(p, w, t, d, e, items, i)
    {
      if i < n {
        assert Settled(p, w, t, d, before, items, i) && SameRow(before, e, items[i].id);
      } else {
        assert Unlisted(items, n, items[n].id) && SameRow(d, before, items[n].id);
      }
    }
    forall id | Unlisted(items, n + 1, id)
      ensures SameRow(d, e, id)
    {
      assert Unlisted(items, n, id) && SameRow(d, before, id) && id != items[n].id && SameRow(before, e, id);
    }
  }

  lemma {:induction false} RowsOfRun(p: Provider, w: World, t: Target, d: Data, items: seq<Item>, n: nat)
    requires Undisturbed(w) && n <= |items| && FromMemories(items, d.memories) && DistinctIds(items)
    ensures var e := OneByOne(p, w, t, Run(d, Tally(0, 0, 0, 0)), items, n).data;
            && (forall i | 0 <= i < n :: Settled(p, w, t, d, e, items, i))
            && (forall id | Unlisted(items, n, id) :: SameRow(d, e, id))
  {
    if n > 0 {
      var r := Run(d, Tally(0, 0, 0, 0));
      CountsOfRun(p, w, t, d, items, n - 1);
      RowsOfRun(p, w, t, d, items, n - 1);
      UndisturbedWrite(p, w, t, r, items, n - 1);
      StepSettles(p, w, t, d, OneByOne(p, w, t, r, items, n - 1).data, OneByOne(p, w, t, r, items, n).data, items, n - 1);
    }
  }

  /** A run over distinct memories that nobody disturbs: each candidate the provider embeds has exactly that
  vector, each over-long one is parked, and each that fails or whose write raises keeps the row it had, like
  every memory that was no candidate. */
  lemma BackfillStoresTheAnswers(p: Provider, w: World, t: Target, d: Data, items: seq<Item>, i: nat)
    requires Undisturbed(w) && FromMemories(items, d.memories) && DistinctIds(items) && i < |items|
    ensures var e, item := OneByOne(p, w, t, Run(d, Tally(0, 0, 0, 0)), items, |items|).data, items[i];
            match p.single(item.content)
            case Vec(numbers) => !w.raises(i) ==>
              && item.id in e.rows
              && e.rows[item.id] == Row(t.space, t.revision, HashOf(item.content), Vector(item.content, numbers))
            case TooLong => !w.raises(i) ==>
              && item.id in e.rows
              && e.rows[item.id] == Row(t.space, t.revision, HashOf(item.content), Payload.Tombstone(item.content))
            case Fails => SameRow(d, e, item.id)
    ensures w.raises(i) ==>
              SameRow(d, OneByOne(p, w, t, Run(d, Tally(0, 0, 0, 0)), items, |items|).data, items[i].id)
  {
    var e := RowsOfWholeRun(p, w, t, d, items);
    AnswerIsStored(p, w, t, d, e, items, i);
  }

  lemma RowsOfWholeRun(p: Provider, w: World, t: Target, d: Data, items: seq<Item>) returns (e: Data)
    requires Undisturbed(w) && FromMemories(items, d.memories) && DistinctIds(items)
    ensures e == OneByOne(p, w, t, Run(d, Tally(0, 0, 0, 0)), items, |items|).data
    ensures forall i | 0 <= i < |items| :: Settled(p, w, t, d, e, items, i)
  {
    e := OneByOne(p, w, t, Run(d, Tally(0, 0, 0, 0)), items, |items|).data;
    RowsOfRun(p, w, t, d, items, |items|);
  }

  lemma AnswerIsStored(p: Provider, w: World, t: Target, d: Data, e: Data, items: seq<Item>, i: nat)
    requires i < |items| && forall k | 0 <= k < |items| :: Settled(p, w, t, d, e, items, k)
    ensures var item := items[i];
            match p.single(item.content)
            case Vec(numbers) => !w.raises(i) ==>
              && item.id in e.rows
              && e.rows[item.id] == Row(t.space, t.revision, HashOf(item.content), Vector(item.content, numbers))
            case TooLong => !w.raises(i) ==>
              && item.id in e.rows
              && e.rows[item.id] == Row(t.space, t.revision, HashOf(item.content), Payload.Tombstone(item.content))
            case Fails => SameRow(d, e, item.id)
    ensures w.raises(i) ==> SameRow(d, e, items[i].id)
  {
    assert Settled(p, w, t, d, e, items, i);
  }

  /** And it leaves every other row and every memory alone, and each counter is the number of candidates of
  its kind. */
  lemma BackfillCountsTheAnswers(p: Provider, w: World, t: Target, d: Data, items: seq<Item>)
    requires Undisturbed(w) && FromMemories(items, d.memories) && DistinctIds(items)
    ensures var out := OneByOne(p, w, t, Run(d, Tally(0, 0, 0, 0)), items, |items|);
            && out.data.memories == d.memories
            && (forall id | (forall i | 0 <= i < |items| :: items[i].id != id) :: SameRow(d, out.data, id))
            && out.tally.generated == |set i: nat | i < |items| && !w.raises(i) && p.single(items[i].content).Vec?|
            && out.tally.tombstoned == |set i: nat | i < |items| && !w.raises(i) && p.single(items[i].content).TooLong?|
            && out.tally.failed == |set i: nat | i < |items| && (w.raises(i) || p.single(items[i].content).Fails?)|
            && out.tally.refused == 0
  {
    var n := |items|;
    RowsOfRun(p, w, t, d, items, n);
    CountsOfRun(p, w, t, d, items, n);
    assert forall id | (forall i | 0 <= i < n :: items[i].id != id) :: Unlisted(items, n, id);
    assert (set i: nat | i < n && !w.raises(i) && p.single(items[i].content).Vec?) == WithFate(p, w, items, n, Embedded);
    assert (set i: nat | i < n && !w.raises(i) && p.single(items[i].content).TooLong?) == WithFate(p, w, items, n, Parked);
    assert (set i: nat | i < n && (w.raises(i) || p.single(items[i].content).Fails?)) == WithFate(p, w, items, n, Lost);
  }
}
