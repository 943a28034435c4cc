/** The coverage counts that health reports, against the per-memory freshness
  * predicate: which memories each of them counts, and how they add up to all
  * the memories there are. */
module EmbeddingHealth {
  import opened Common
  import opened EmbeddingStore
  import opened Backfill

  datatype Status = Status(total: nat, embedded: nat, missing: int, unembeddable: nat, spaceMismatch: nat, contentMismatch: nat)

  function Embedded(d: Data): set<Id> {
    set id | id in d.rows && d.rows[id].payload.Vector?
  }

  function Tombstones(d: Data): set<Id> {
    set id | id in d.rows && d.rows[id].payload.Tombstone?
  }

  function SpaceMismatch(d: Data, space: Space, snapshot: Snapshot): set<Id> {
    set id | id in d.rows && !InSpace(d.rows[id], space, snapshot)
  }

  // Joined with the memories: right space, another content.
  function ContentMismatch(d: Data, space: Space, snapshot: Snapshot): set<Id> {
    set id | id in d.rows && id in d.memories && InSpace(d.rows[id], space, snapshot)
             && d.rows[id].contentHash != HashOf(d.memories[id])
  }

  function Unembeddable(d: Data, space: Space, snapshot: Snapshot): set<Id> {
    set id | id in d.rows && id in d.memories && d.rows[id].payload.Tombstone?
             && InSpace(d.rows[id], space, snapshot) && d.rows[id].contentHash == HashOf(d.memories[id])
  }

  function EmbeddingStatus(d: Data, space: Space, snapshot: Snapshot): Status {
    Status(|d.memories|, |Embedded(d)|, |d.memories| - |d.rows|, |Unembeddable(d, space, snapshot)|,
           |SpaceMismatch(d, space, snapshot)|, |ContentMismatch(d, space, snapshot)|)
  }

  function NotCurrent(d: Data, t: Target): set<Id> {
    set id | id in d.memories && !IsCurrent(d, t, id, d.memories[id])
  }

  lemma NotCurrentParts(d: Data, space: Space, snapshot: Snapshot)
    requires Linked(d) && snapshot.known
    ensures var a, b := SpaceMismatch(d, space, snapshot), ContentMismatch(d, space, snapshot);
            && NotCurrent(d, Target(space, snapshot.value)) == d.memories.Keys - d.rows.Keys + (a + b)
            && a !! b && a + b <= d.rows.Keys
  {
  }

  lemma SizeOfParts(memories: set<Id>, rows: set<Id>, a: set<Id>, b: set<Id>)
    requires rows <= memories && a !! b && a + b <= rows
    ensures |memories| - |rows| + |a| + |b| == |memories - rows + (a + b)|
  {
    assert (memories - rows) !! (a + b);
    assert memories == (memories - rows) + rows;
  }

  /** With a verified revision the counts are exactly the work a backfill would find: missing plus the two
  stale buckets is the number of memories that are not current. */
  lemma CountsAreTheCandidates(d: Data, space: Space, snapshot: Snapshot)
    requires Linked(d) && snapshot.known
    ensures var s := EmbeddingStatus(d, space, snapshot);
            s.missing + s.spaceMismatch + s.contentMismatch == |NotCurrent(d, Target(space, snapshot.value))|
  {
    NotCurrentParts(d, space, snapshot);
    SizeOfParts(d.memories.Keys, d.rows.Keys, SpaceMismatch(d, space, snapshot), ContentMismatch(d, space, snapshot));
    assert |d.memories.Keys| == |d.memories| && |d.rows.Keys| == |d.rows|;
  }

  /** The row classes partition: vectors and tombstones make up all rows; the two stale buckets and the
  parked rows never overlap; a current tombstone is never counted as work. */
  lemma RowClassesPartition(d: Data, space: Space, snapshot: Snapshot)
    requires Linked(d)
    ensures |Embedded(d)| + |Tombstones(d)| == |d.rows|
    ensures SpaceMismatch(d, space, snapshot) !! ContentMismatch(d, space, snapshot) !! Unembeddable(d, space, snapshot)
    ensures Unembeddable(d, space, snapshot) <= Tombstones(d)
    ensures EmbeddingStatus(d, space, snapshot).missing >= 0
    ensures snapshot.known ==> Unembeddable(d, space, snapshot) !! NotCurrent(d, Target(space, snapshot.value))
  {
    assert d.rows.Keys == Embedded(d) + Tombstones(d);
    assert Embedded(d) !! Tombstones(d);
    assert |d.rows.Keys| == |d.rows|;
    SubsetSize(d.rows.Keys, d.memories.Keys);
    assert |d.memories.Keys| == |d.memories|;
  }

  // Stored in the query's space, as far as it is verified
  predicate Comparable(row: Row, space: Space, snapshot: Snapshot) {
    && row.space.provider == space.provider && row.space.model == space.model
    && row.space.fingerprint == space.fingerprint
    && (!snapshot.known || row.revision == snapshot.value)
  }

  function Outdated(d: Data, space: Space, snapshot: Snapshot): set<Id>
    requires Linked(d)
  {
    set id | id in d.rows && Comparable(d.rows[id], space, snapshot) && d.rows[id].contentHash.of != d.memories[id]
  }

  function Holding(d: Data, space: Space, snapshot: Snapshot): set<Id>
    requires Linked(d)
  {
    set id | id in d.rows && d.rows[id].payload.Vector? && Comparable(d.rows[id], space, snapshot)
             && d.rows[id].contentHash.of == d.memories[id]
  }

  lemma StaleRows(d: Data, space: Space, snapshot: Snapshot)
    requires Linked(d)
    ensures SpaceMismatch(d, space, snapshot) == set id | id in d.rows && !Comparable(d.rows[id], space, snapshot)
    ensures ContentMismatch(d, space, snapshot) == Outdated(d, space, snapshot)
  {
  }

  lemma RowParts(d: Data, space: Space, snapshot: Snapshot)
    requires Linked(d)
    ensures var a, b := SpaceMismatch(d, space, snapshot), ContentMismatch(d, space, snapshot);
            var c, h := Unembeddable(d, space, snapshot), Holding(d, space, snapshot);
            a !! b !! c !! h && a + b + c + h == d.rows.Keys
  {
    forall id | id in d.rows
      ensures id in SpaceMismatch(d, space, snapshot) + ContentMismatch(d, space, snapshot)
                    + Unembeddable(d, space, snapshot) + Holding(d, space, snapshot)
    {
    }
  }

  /** Each count, memory by memory. A memory has no row, or one of another space, or one of another content, or
  a tombstone that still holds, or a vector that still holds; and these five make up the total. */
  lemma EveryMemoryIsCountedOnce(d: Data, space: Space, snapshot: Snapshot)
    requires Linked(d)
    ensures var s := EmbeddingStatus(d, space, snapshot);
            && s.total == |d.memories.Keys|
            && s.missing == |d.memories.Keys - d.rows.Keys|
            && s.spaceMismatch == |set id | id in d.rows && !Comparable(d.rows[id], space, snapshot)|
            && s.contentMismatch == |Outdated(d, space, snapshot)|
            && s.embedded == |set id | id in d.rows && d.rows[id].payload.Vector?|
            && s.total == s.missing + s.spaceMismatch + s.contentMismatch + s.unembeddable + |Holding(d, space, snapshot)|
  {
    StaleRows(d, space, snapshot);
    RowParts(d, space, snapshot);
    FourParts(SpaceMismatch(d, space, snapshot), ContentMismatch(d, space, snapshot), Unembeddable(d, space, snapshot),
              Holding(d, space, snapshot));
    assert d.memories.Keys == d.rows.Keys + (d.memories.Keys - d.rows.Keys);
    assert |d.rows.Keys| == |d.rows| && |d.memories.Keys| == |d.memories|;
  }

  lemma FourParts(a: set<Id>, b: set<Id>, c: set<Id>, d: set<Id>)
    requires a !! b !! c !! d
    ensures |a + b + c + d| == |a| + |b| + |c| + |d|
  {
  }

  /** After a clean whole-corpus backfill, health shows nothing missing and nothing stale. */
  lemma CleanBackfillClearsHealth(p: Provider, w: World, t: Target, d: Data, items: seq<Item>, force: bool, snapshot: Snapshot)
    requires Linked(d) && Quiet(w) && Lists(items, d.memories)
    requires snapshot.known && snapshot.value == t.revision
    requires var c := Candidates(d, t, items, force);
             OneByOne(p, w, t, Run(d, Tally(0, 0, 0, 0)), c, |c|).tally.failed == 0
    ensures var c := Candidates(d, t, items, force);
            var after := OneByOne(p, w, t, Run(d, Tally(0, 0, 0, 0)), c, |c|).data;
            var s := EmbeddingStatus(after, t.space, snapshot);
            s.missing == 0 && s.spaceMismatch == 0 && s.contentMismatch == 0
  {
    var c := Candidates(d, t, items, force);
    var after := OneByOne(p, w, t, Run(d, Tally(0, 0, 0, 0)), c, |c|).data;
    BackfillCompletes(p, w, t, d, items, force);
    WritesStayLinked(p, w, t, Run(d, Tally(0, 0, 0, 0)), c, |c|);
    CandidatesAre(after, t, items, false);
    assert NotCurrent(after, t) == {} by {
      forall id | id in after.memories ensures IsCurrent(after, t, id, after.memories[id]) {
        var i :| 0 <= i < |items| && items[i].id == id;
        assert items[i] in items;
      }
    }
    CountsAreTheCandidates(after, t.space, snapshot);
    RowClassesPartition(after, t.space, snapshot);
  }

  lemma {:induction false} WritesStayLinked(p: Provider, w: World, t: Target, r: Run, items: seq<Item>, n: nat)
    requires n <= |items| && Linked(r.data) && Quiet(w)
    ensures Linked(OneByOne(p, w, t, r, items, n).data)
  {
    if n > 0 {
      WritesStayLinked(p, w, t, r, items, n - 1);
      var before := OneByOne(p, w, t, r, items, n - 1);
      assert w.others(n - 1, before.data) == before.data;
    }
  }
}
