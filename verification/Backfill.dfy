/** The embedding backfill: candidate selection, chunked batches with a per-item
  * fallback, and tombstones; then the lock around a run, and what reconciliation
  * remembers of it. */
module Backfill {
  import opened Common
  import opened EmbeddingStore

  // The provider is deterministic. Anything may happen to the store between two of the backfill's own
  // writes, and any of those writes may raise.

  datatype Single = Vec(numbers: seq<real>) | TooLong | Fails

  datatype Batch = Vectors(numbers: seq<seq<real>>) | Raises

  datatype Provider = Provider(single: Content -> Single, batch: seq<Content> -> Batch)

  // A batch call agrees with the single calls, raises, or returns the wrong number of vectors.
  ghost predicate Consistent(p: Provider) {
    forall contents: seq<Content> :: BatchAgrees(p, contents)
  }

  predicate BatchAgrees(p: Provider, contents: seq<Content>) {
    var answer := p.batch(contents);
    answer.Vectors? && |answer.numbers| == |contents| ==>
      forall i | 0 <= i < |contents| :: p.single(contents[i]) == Vec(answer.numbers[i])
  }

  datatype Item = Item(id: Id, content: Content)

  /** The currency check asks the store for the row's identity and compares. */
  method IsRowCurrent(store: SqliteStore, t: Target, id: Id, content: Content) returns (current: bool)
    ensures current == IsCurrent(store.Contents(), t, id, content)
  {
    var identity := store.GetEmbeddingIdentity(id);
    if identity.None? {
      return false;
    }
    var row := identity.value;
    return row.space == t.space && row.revision == t.revision && row.contentHash == HashOf(content);
  }

  function Candidates(d: Data, t: Target, items: seq<Item>, force: bool): seq<Item> {
    if items == [] then [] else
    (if !force && IsCurrent(d, t, items[0].id, items[0].content) then [] else [items[0]])
    + Candidates(d, t, items[1..], force)
  }

  // The surroundings of one run: what others do to the store just before the i-th candidate is
  // written, and whether that write raises.
  datatype World = World(others: (nat, Data) -> Data, raises: nat -> bool)

  datatype Tally = Tally(generated: nat, failed: nat, tombstoned: nat, refused: nat)

  datatype Run = Run(data: Data, tally: Tally)

  function RowFor(t: Target, content: Content, answer: Single): Row
    requires !answer.Fails?
  {
    Row(t.space, t.revision, HashOf(content),
        if answer.Vec? then Vector(content, answer.numbers) else Payload.Tombstone(content))
  }

  // One candidate, given what the provider answered for its content.
  function Write(w: World, t: Target, r: Run, i: nat, item: Item, answer: Single): Run {
    var now := w.others(i, r.data);
    if answer.Fails? || w.raises(i) then Run(now, r.tally.(failed := r.tally.failed + 1))
    else
      var row := RowFor(t, item.content, answer);
      if !SwapAllowed(now, item.id, row.contentHash) then Run(now, r.tally.(refused := r.tally.refused + 1))
      else if answer.Vec? then Run(Saved(now, item.id, row), r.tally.(generated := r.tally.generated + 1))
      else Run(Saved(now, item.id, row), r.tally.(tombstoned := r.tally.tombstoned + 1))
  }

  // The specification: embed and write the candidates one by one.
  function OneByOne(p: Provider, w: World, t: Target, r: Run, items: seq<Item>, n: nat): Run
    requires n <= |items|
  {
    if n == 0 then r else
    Write(w, t, OneByOne(p, w, t, r, items, n - 1), n - 1, items[n - 1], p.single(items[n - 1].content))
  }

  const CHUNK_SIZE := 32

  lemma CandidatesStep(d: Data, t: Target, items: seq<Item>, i: nat, force: bool, found: seq<Item>)
    requires i < |items|
    ensures found + Candidates(d, t, items[i..], force)
         == (if !force && IsCurrent(d, t, items[i].id, items[i].content) then found else found + [items[i]])
            + Candidates(d, t, items[i + 1..], force)
  {
    var rest := Candidates(d, t, items[i + 1..], force);
    assert items[i..][1..] == items[i + 1..];
    if !force && IsCurrent(d, t, items[i].id, items[i].content) {
      assert Candidates(d, t, items[i..], force) == rest;
    } else {
      assert Candidates(d, t, items[i..], force) == [items[i]] + rest;
      assert found + ([items[i]] + rest) == (found + [items[i]]) + rest;
    }
  }

  // The scan reads the rows one by one; `seen(i)` is the store when it reads the i-th.
  function Selected(seen: nat -> Data, t: Target, items: seq<Item>, n: nat, force: bool): seq<Item>
    requires n <= |items|
  {
    if n == 0 then [] else
    var item := items[n - 1];
    Selected(seen, t, items, n - 1, force)
    + (if !force && IsCurrent(seen(n - 1), t, item.id, item.content) then [] else [item])
  }

  method SelectCandidates(seen: nat -> Data, t: Target, items: seq<Item>, force: bool) returns (candidates: seq<Item>)
    ensures candidates == Selected(seen, t, items, |items|, force)
  {
    candidates := [];
    for i := 0 to |items|
      invariant candidates == Selected(seen, t, items, i, force)
    {
      if !force && IsCurrent(seen(i), t, items[i].id, items[i].content) {
        continue;
      }
      candidates := candidates + [items[i]];
    }
  }

  /** A store that rests while it is scanned yields its candidates. */
  lemma {:induction false} SelectedAtRest(seen: nat -> Data, d: Data, t: Target, items: seq<Item>, n: nat, force: bool)
    requires n <= |items| && forall i | 0 <= i < n :: seen(i) == d
    ensures Selected(seen, t, items, n, force) + Candidates(d, t, items[n..], force) == Candidates(d, t, items, force)
    ensures n == |items| ==> Selected(seen, t, items, n, force) == Candidates(d, t, items, force)
  {
    if n > 0 {
      SelectedAtRest(seen, d, t, items, n - 1, force);
      CandidatesStep(d, t, items, n - 1, force, Selected(seen, t, items, n - 1, force));
    } else {
      assert items[0..] == items;
    }
  }

  /** Whatever others write meanwhile, a listed memory is left out exactly when its row was current as it was
  read, and the run was not forced. */
  lemma {:induction false} SelectedAre(seen: nat -> Data, t: Target, items: seq<Item>, n: nat, force: bool)
    requires n <= |items|
    ensures forall x :: x in Selected(seen, t, items, n, force) <==>
              exists i :: 0 <= i < n && items[i] == x
                          && (force || x.id !in seen(i).rows
                              || seen(i).rows[x.id] != Row(t.space, t.revision, HashOf(x.content), seen(i).rows[x.id].payload))
  {
    if n > 0 {
      SelectedAre(seen, t, items, n - 1, force);
    }
  }

  function Contents(items: seq<Item>): (contents: seq<Content>)
    ensures |contents| == |items| && forall i | 0 <= i < |items| :: contents[i] == items[i].content
  {
    seq(|items|, i requires 0 <= i < |items| => items[i].content)
  }

  /** One candidate, given what the provider answered: publish its row, park it, or count the failure. */
  method WriteItem(w: World, t: Target, d: Data, before: Tally, i: nat, item: Item, answer: Single)
    returns (data: Data, tally: Tally)
    ensures Run(data, tally) == Write(w, t, Run(d, before), i, item, answer)
  {
    data, tally := w.others(i, d), before;
    match answer
    case Vec(numbers) =>
      var row := Row(t.space, t.revision, HashOf(item.content), Vector(item.content, numbers));
      if w.raises(i) {
        tally := tally.(failed := tally.failed + 1);
      } else if SwapAllowed(data, item.id, row.contentHash) {
        data := data.(rows := data.rows[item.id := row]);
        tally := tally.(generated := tally.generated + 1);
      } else {
        tally := tally.(refused := tally.refused + 1);
      }
    case TooLong =>
      var row := Row(t.space, t.revision, HashOf(item.content), Payload.Tombstone(item.content));
      if w.raises(i) {
        tally := tally.(failed := tally.failed + 1);
      } else if SwapAllowed(data, item.id, row.contentHash) {
        data := data.(rows := data.rows[item.id := row]);
        tally := tally.(tombstoned := tally.tombstoned + 1);
      } else {
        tally := tally.(refused := tally.refused + 1);
      }
    case Fails =>
      tally := tally.(failed := tally.failed + 1);
  }

  /** The backfill loop, for any chunk size: exactly the rows and counts of embedding the candidates
  one by one. */
  method BackfillChunked(p: Provider, w: World, t: Target, d: Data, candidates: seq<Item>, chunkSize: nat)
    returns (data: Data, tally: Tally)
    requires Consistent(p) && chunkSize > 0
    ensures Run(data, tally) == OneByOne(p, w, t, Run(d, Tally(0, 0, 0, 0)), candidates, |candidates|)
  {
    data, tally := d, Tally(0, 0, 0, 0);
    var start := 0;
    while start < |candidates|
      invariant 0 <= start <= |candidates|
      invariant Run(data, tally) == OneByOne(p, w, t, Run(d, Tally(0, 0, 0, 0)), candidates, start)
    {
      var end := if start + chunkSize <= |candidates| then start + chunkSize else |candidates|;
      var chunk := candidates[start..end];
      var vectors: Option<seq<seq<real>>> := None;
      var answer := p.batch(Contents(chunk));
      // A wrong cardinality would make attribution a guess, and one bad input fails a whole batch:
      // either way the chunk is retried item by item.
      if answer.Vectors? && |answer.numbers| == |chunk| {
        vectors := Some(answer.numbers);
      }
      assert BatchAgrees(p, Contents(chunk));
      for i := 0 to |chunk|
        invariant Run(data, tally) == OneByOne(p, w, t, Run(d, Tally(0, 0, 0, 0)), candidates, start + i)
      {
        var item := chunk[i];
        assert item == candidates[start + i] && Contents(chunk)[i] == item.content;
        var single := if vectors.Some? then Vec(vectors.value[i]) else p.single(item.content);
        data, tally := WriteItem(w, t, data, tally, start + i, item, single);
      }
      start := end;
    }
  }

  function Accounted(tally: Tally): nat {
    tally.generated + tally.failed + tally.tombstoned + tally.refused
  }

  /** Every candidate is accounted for once: generated, failed, tombstoned or refused by the swap. */
  lemma {:induction false} Conservation(p: Provider, w: World, t: Target, r: Run, items: seq<Item>, n: nat)
    requires n <= |items|
    ensures Accounted(OneByOne(p, w, t, r, items, n).tally) == Accounted(r.tally) + n
  {
    if n > 0 {
      Conservation(p, w, t, r, items, n - 1);
    }
  }

  // ---------- completion ----------

  ghost predicate Quiet(w: World) {
    && (forall i: nat, d: Data :: w.others(i, d) == d)
    && (forall i: nat :: !w.raises(i))
  }

  ghost predicate FromMemories(items: seq<Item>, memories: map<Id, Content>) {
    forall i | 0 <= i < |items| :: items[i].id in memories && items[i].content == memories[items[i].id]
  }

  // `items` lists every memory once, with its content.
  ghost predicate Lists(items: seq<Item>, memories: map<Id, Content>) {
    && (forall i, j | 0 <= i < j < |items| :: items[i].id != items[j].id)
    && FromMemories(items, memories)
    && (forall id | id in memories :: exists i :: 0 <= i < |items| && items[i].id == id)
  }

  lemma {:induction false} CandidatesAre(d: Data, t: Target, items: seq<Item>, force: bool)
    ensures forall x :: x in Candidates(d, t, items, force) <==>
              x in items && (force || !IsCurrent(d, t, x.id, x.content))
  {
    if items != [] {
      CandidatesAre(d, t, items[1..], force);
      assert items == [items[0]] + items[1..];
    }
  }

  lemma {:induction false} FailedGrows(p: Provider, w: World, t: Target, r: Run, items: seq<Item>, n: nat)
    requires n < |items|
    ensures OneByOne(p, w, t, r, items, n).tally.failed <= OneByOne(p, w, t, r, items, n + 1).tally.failed
  {
  }

  lemma {:induction false} QuietRunSettles(p: Provider, w: World, t: Target, d: Data, items: seq<Item>, n: nat)
    requires Quiet(w) && n <= |items|
    requires FromMemories(items, d.memories)
    requires OneByOne(p, w, t, Run(d, Tally(0, 0, 0, 0)), items, n).tally.failed == 0
    ensures var out := OneByOne(p, w, t, Run(d, Tally(0, 0, 0, 0)), items, n);
            && out.data.memories == d.memories
            && out.tally.refused == 0
            && (forall i | 0 <= i < n :: IsCurrent(out.data, t, items[i].id, items[i].content))
            && (forall id, c | IsCurrent(d, t, id, c) && id in d.memories && c == d.memories[id] :: IsCurrent(out.data, t, id, c))
  {
    if n > 0 {
      FailedGrows(p, w, t, Run(d, Tally(0, 0, 0, 0)), items, n - 1);
      QuietRunSettles(p, w, t, d, items, n - 1);
      var before := OneByOne(p, w, t, Run(d, Tally(0, 0, 0, 0)), items, n - 1);
      var item := items[n - 1];
      assert w.others(n - 1, before.data) == before.data && !w.raises(n - 1);
      assert SwapAllowed(before.data, item.id, HashOf(item.content));
    }
  }

  lemma CandidatesFromMemories(d: Data, t: Target, items: seq<Item>, force: bool)
    requires FromMemories(items, d.memories)
    ensures FromMemories(Candidates(d, t, items, force), d.memories)
  {
    var c := Candidates(d, t, items, force);
    CandidatesAre(d, t, items, force);
    forall i | 0 <= i < |c| ensures c[i].id in d.memories && c[i].content == d.memories[c[i].id] {
      assert c[i] in c;
      var j :| 0 <= j < |items| && items[j] == c[i];
    }
  }

  lemma EverythingCurrent(p: Provider, w: World, t: Target, d: Data, items: seq<Item>, force: bool)
    requires Quiet(w) && FromMemories(items, d.memories)
    requires var c := Candidates(d, t, items, force);
             OneByOne(p, w, t, Run(d, Tally(0, 0, 0, 0)), c, |c|).tally.failed == 0
    ensures var c := Candidates(d, t, items, force);
            var out := OneByOne(p, w, t, Run(d, Tally(0, 0, 0, 0)), c, |c|);
            && out.tally.refused == 0 && out.data.memories == d.memories
            && forall x | x in items :: IsCurrent(out.data, t, x.id, x.content)
  {
    var c := Candidates(d, t, items, force);
    CandidatesFromMemories(d, t, items, force);
    CandidatesAre(d, t, items, force);
    QuietRunSettles(p, w, t, d, c, |c|);
    var out := OneByOne(p, w, t, Run(d, Tally(0, 0, 0, 0)), c, |c|);
    forall x | x in items ensures IsCurrent(out.data, t, x.id, x.content) {
      if x in c {
        var i :| 0 <= i < |c| && c[i] == x;
      } else {
        var j :| 0 <= j < |items| && items[j] == x;
        assert IsCurrent(d, t, x.id, x.content) && x.id in d.memories && x.content == d.memories[x.id];
      }
    }
  }

  /** A whole-corpus run with no failures and no concurrent edits, forced or not, refuses nothing and
  leaves no candidate for the next run under the same revision: tombstoned memories included. */
  lemma BackfillCompletes(p: Provider, w: World, t: Target, d: Data, items: seq<Item>, force: bool)
    requires Quiet(w) && Lists(items, d.memories)
    requires var c := Candidates(d, t, items, force);
             OneByOne(p, w, t, Run(d, Tally(0, 0, 0, 0)), c, |c|).tally.failed == 0
    ensures var c := Candidates(d, t, items, force);
            var out := OneByOne(p, w, t, Run(d, Tally(0, 0, 0, 0)), c, |c|);
            && out.tally.refused == 0
            && out.tally.generated + out.tally.tombstoned == |c|
            && Lists(items, out.data.memories)
            && Candidates(out.data, t, items, false) == []
  {
    var c := Candidates(d, t, items, force);
    var out := OneByOne(p, w, t, Run(d, Tally(0, 0, 0, 0)), c, |c|);
    EverythingCurrent(p, w, t, d, items, force);
    Conservation(p, w, t, Run(d, Tally(0, 0, 0, 0)), c, |c|);
    NoCandidates(out.data, t, items);
  }

  lemma {:induction false} NoCandidates(d: Data, t: Target, items: seq<Item>)
    requires forall x | x in items :: IsCurrent(d, t, x.id, x.content)
    ensures Candidates(d, t, items, false) == []
  {
    if items != [] {
      assert items[0] in items;
      assert forall x | x in items[1..] :: x in items;
      NoCandidates(d, t, items[1..]);
    }
  }

  // ---------- the backfill lock, and what reconciliation remembers ----------

  datatype Reconciled = Never | With(revision: Revision)

  datatype Outcome = Skipped | RevisionUnknown | Raised | Finished(tally: Tally)

  class EmbeddingService {
    var running: bool          // the backfill lock
    var reconciled: Reconciled // the revision of the last completed whole-corpus run
    var data: Data

    constructor (d: Data)
      ensures !running && reconciled == Never && data == d
    {
      running, reconciled, data := false, Never, d;
    }

    /** `generate_missing`. The snapshot serves every currency check and every stamp; `seen` is the store as
      * each row is checked. No listing is a store that raised while the candidates were selected. However the call ends, the lock is as it was found. */
    method GenerateMissing(p: Provider, w: World, space: Space, snapshot: Snapshot, listing: Option<seq<Item>>,
                           seen: nat -> Data, wholeCorpus: bool, force: bool)
      returns (outcome: Outcome)
      requires Consistent(p)
      modifies this
      ensures running == old(running)
      ensures outcome == Skipped <==> old(running)
      ensures outcome == RevisionUnknown <==> !old(running) && !snapshot.known
      ensures outcome == Raised <==> !old(running) && snapshot.known && listing.None?
      ensures !outcome.Finished? ==> data == old(data) && reconciled == old(reconciled)
      ensures outcome.Finished? ==>
                var t := Target(space, snapshot.value);
                var c := Selected(seen, t, listing.value, |listing.value|, force);
                && Run(data, outcome.tally) == OneByOne(p, w, t, Run(old(data), Tally(0, 0, 0, 0)), c, |c|)
                && reconciled == (if wholeCorpus then With(snapshot.value) else old(reconciled))
    {
      if running {
        return Skipped;
      }
      running := true;
      if !snapshot.known {
        running := false;
        return RevisionUnknown;
      }
      if listing.None? {
        running := false;
        return Raised;
      }
      var t := Target(space, snapshot.value);
      var candidates := SelectCandidates(seen, t, listing.value, force);
      var after, tally := BackfillChunked(p, w, t, data, candidates, CHUNK_SIZE);
      data := after;
      if wholeCorpus {
        reconciled := With(snapshot.value);
      }
      running := false;
      return Finished(tally);
    }

    /** `_reconcile` starts a run exactly when one is owed: the revision is verified and the last
    completed whole-corpus run used another one. */
    method MustReconcile(snapshot: Snapshot, automatic: bool) returns (start: bool)
      ensures start <==> automatic && snapshot.known && reconciled != With(snapshot.value) && !running
    {
      if !automatic || !snapshot.known {
        return false;
      }
      if reconciled == With(snapshot.value) || running {
        return false;
      }
      return true;
    }
  }
}
