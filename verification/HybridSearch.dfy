/** The windows that hybrid search fuses: which rows of the keyword ranking, and
  * which of the stored vectors, in scope and of the space of the query, reach
  * fusion at all. */
module HybridSearch {
  import opened Common
  import opened SearchStream
  import opened Fusion
  import E = EmbeddingStore
  import StableSort

  // What one hybrid search reads: the store's keyword ranking, the pins that match, the embedding table in
  // the order it comes (equal similarities fall in any order), the memories, and the caller's parameters.
  datatype Search = Search(
    ranking: seq<Memory>, pins: seq<Memory>, table: seq<(Id, E.Row)>, stored: map<Id, Memory>,
    space: E.Space, snapshot: E.Snapshot, vector: seq<real>,
    includePinned: bool, pinnedLimit: nat, tags: set<string>, project: Option<string>, topK: nat, offset: nat)

  ghost predicate Legal(s: Search) {
    && NoRepeats(s.ranking) && NoRepeats(s.pins)
    && (forall i, j | 0 <= i < j < |s.table| :: s.table[i].0 != s.table[j].0)
    && (forall id | id in s.stored :: s.stored[id].id == id)
  }

  function Budget(s: Search): nat {
    s.topK + s.offset
  }

  function FloatedPins(s: Search): seq<Memory> {
    Floated(s.pins, s.includePinned, s.pinnedLimit)
  }

  function KeywordWindow(s: Search): seq<Memory> {
    StoreSearch(s.ranking, 2 * Budget(s), 0, Ids(FloatedPins(s)))
  }

  // ---------- the semantic window ----------

  function Dot(a: seq<real>, b: seq<real>): real
    requires |a| == |b|
  {
    if a == [] then 0.0 else a[0] * b[0] + Dot(a[1..], b[1..])
  }

  // A usable vector of the query's space and length.
  predicate Comparable(s: Search, row: E.Row) {
    row.payload.Vector? && |row.payload.numbers| == |s.vector| && E.InSpace(row, s.space, s.snapshot)
  }

  function EligibleIds(s: Search): set<Id> {
    set id | id in s.stored && InScope(s.stored[id], s.tags, s.project)
  }

  predicate Eligible(s: Search, id: Id) {
    && id !in Ids(FloatedPins(s))
    && (s.project.Some? || s.tags != {} ==> id in EligibleIds(s))
  }

  // Scope and exclusions come before the window is cut.
  function Candidates(s: Search, table: seq<(Id, E.Row)>): seq<(Id, real)> {
    if table == [] then [] else
    var earlier := Candidates(s, table[..|table| - 1]);
    var (id, row) := table[|table| - 1];
    if Comparable(s, row) && Eligible(s, id) then earlier + [(id, Dot(row.payload.numbers, s.vector))] else earlier
  }

  function Similarity(hit: (Id, real)): real {
    hit.1
  }

  function SemanticWindow(s: Search): seq<(Id, real)> {
    Take(StableSort.Sort(Candidates(s, s.table), Similarity), 2 * Budget(s))
  }

  function QueryOf(s: Search): Query {
    Query(FloatedPins(s), KeywordWindow(s), SemanticWindow(s), s.stored, s.includePinned, s.tags, s.project, s.topK, s.offset)
  }

  ghost predicate IsCandidate(s: Search, table: seq<(Id, E.Row)>, hit: (Id, real)) {
    exists i :: 0 <= i < |table| && table[i].0 == hit.0 && Comparable(s, table[i].1) && Eligible(s, hit.0)
                && hit.1 == Dot(table[i].1.payload.numbers, s.vector)
  }

  lemma {:induction false} CandidatesAre(s: Search, table: seq<(Id, E.Row)>)
    requires forall i, j | 0 <= i < j < |table| :: table[i].0 != table[j].0
    ensures forall hit :: hit in Candidates(s, table) <==> IsCandidate(s, table, hit)
    ensures forall i, j | 0 <= i < j < |Candidates(s, table)| :: Candidates(s, table)[i].0 != Candidates(s, table)[j].0
  {
    if table != [] {
      var n := |table| - 1;
      CandidatesAre(s, table[..n]);
      forall hit
        ensures hit in Candidates(s, table) <==> IsCandidate(s, table, hit)
      {
        CandidateOfLonger(s, table, hit);
      }
      forall i | 0 <= i < |Candidates(s, table[..n])|
        ensures Candidates(s, table[..n])[i].0 != table[n].0
      {
        assert Candidates(s, table[..n])[i] in Candidates(s, table[..n]);
      }
    }
  }

  lemma CandidateOfLonger(s: Search, table: seq<(Id, E.Row)>, hit: (Id, real))
    requires table != []
    ensures IsCandidate(s, table, hit) <==>
              || IsCandidate(s, table[..|table| - 1], hit)
              || IsCandidate(s, [table[|table| - 1]], hit)
  {
    var n := |table| - 1;
    if IsCandidate(s, table[..n], hit) {
      var i :| 0 <= i < n && table[..n][i].0 == hit.0 && Comparable(s, table[..n][i].1) && Eligible(s, hit.0)
               && hit.1 == Dot(table[..n][i].1.payload.numbers, s.vector);
      assert table[i] == table[..n][i];
    }
    if IsCandidate(s, [table[n]], hit) {
      assert table[n].0 == hit.0;
    }
    if IsCandidate(s, table, hit) {
      var i :| 0 <= i < |table| && table[i].0 == hit.0 && Comparable(s, table[i].1) && Eligible(s, hit.0)
               && hit.1 == Dot(table[i].1.payload.numbers, s.vector);
      if i < n {
        assert table[..n][i] == table[i];
      } else {
        assert [table[n]][0] == table[i];
      }
    }
  }

  /** The semantic window: as many hits as fit, none twice, each the similarity of a stored vector of the
    * query's space to a memory in scope that does not float, in non-increasing order; and no such memory
    * that is left out is more similar than one that is in. */
  lemma SemanticWindowIsTheTop(s: Search)
    requires Legal(s)
    ensures var w := SemanticWindow(s);
            && |w| == (if 2 * Budget(s) <= |Candidates(s, s.table)| then 2 * Budget(s) else |Candidates(s, s.table)|)
            && (forall i, j | 0 <= i < j < |w| :: w[i].0 != w[j].0 && w[i].1 >= w[j].1)
            && (forall hit | hit in w :: IsCandidate(s, s.table, hit))
            && (forall i, other | 0 <= i < |w| && IsCandidate(s, s.table, other) && other !in w :: w[i].1 >= other.1)
  {
    var c := Candidates(s, s.table);
    var w := SemanticWindow(s);
    CandidatesAre(s, s.table);
    StableSort.TakenAreLargest(c, Similarity, 2 * Budget(s));
    StableSort.SortSorts(c, Similarity);
    DistinctFirsts(c, StableSort.Sort(c, Similarity));
    forall i, j | 0 <= i < j < |w|
      ensures w[i].0 != w[j].0 && w[i].1 >= w[j].1
    {
      assert Similarity(w[i]) >= Similarity(w[j]);
    }
    forall i, other | 0 <= i < |w| && IsCandidate(s, s.table, other) && other !in w
      ensures w[i].1 >= other.1
    {
      assert Similarity(w[i]) >= Similarity(other);
    }
  }

  /** The similarity is the sum of the products, place by place. */
  lemma {:induction false} DotSnoc(a: seq<real>, b: seq<real>, x: real, y: real)
    requires |a| == |b|
    ensures Dot(a + [x], b + [y]) == Dot(a, b) + x * y
    ensures Dot([], []) == 0.0
  {
    if a != [] {
      DotSnoc(a[1..], b[1..], x, y);
      assert (a + [x])[1..] == a[1..] + [x] && (b + [y])[1..] == b[1..] + [y];
    }
  }

  // In the table stands a vector of the query's provider, model and settings, of its revision once that is
  // verified and of its length; and the memory is in scope and does not float.
  ghost predicate IsHit(s: Search, id: Id, similarity: real) {
    && (exists i :: 0 <= i < |s.table| && s.table[i].0 == id
          && var row := s.table[i].1;
          && row.payload.Vector? && |row.payload.numbers| == |s.vector|
          && row.space.provider == s.space.provider && row.space.model == s.space.model
          && row.space.fingerprint == s.space.fingerprint
          && (!s.snapshot.known || row.revision == s.snapshot.value)
          && similarity == Dot(row.payload.numbers, s.vector))
    && (forall k | 0 <= k < |s.pins| && k < s.pinnedLimit && s.includePinned :: s.pins[k].id != id)
    && (s.project.Some? || s.tags != {} ==>
          && id in s.stored
          && (forall tag | tag in s.tags :: tag in s.stored[id].tags)
          && (s.project.None? || s.stored[id].project == s.project || (s.stored[id].pinned && s.stored[id].project.None?)))
  }

  lemma FloatingPins(s: Search, id: Id)
    ensures id in Ids(FloatedPins(s))
       <==> exists k :: 0 <= k < |s.pins| && k < s.pinnedLimit && s.includePinned && s.pins[k].id == id
  {
    FloatsWhenAsked(s.pins, s.includePinned, s.pinnedLimit);
    var floated := FloatedPins(s);
    forall k | 0 <= k < |floated|
      ensures floated[k] == s.pins[k]
    {
    }
    forall k | 0 <= k < |s.pins| && k < s.pinnedLimit && s.includePinned
      ensures s.pins[k].id in Ids(floated)
    {
      assert floated[k].id == s.pins[k].id;
    }
  }

  lemma HitIsCandidate(s: Search, hit: (Id, real))
    ensures IsCandidate(s, s.table, hit) <==> IsHit(s, hit.0, hit.1)
  {
    FloatingPins(s, hit.0);
    forall row: E.Row
      ensures row.space == s.space <==>
                && row.space.provider == s.space.provider && row.space.model == s.space.model
                && row.space.fingerprint == s.space.fingerprint
    {
    }
    assert (forall tag | tag in s.tags :: hit.0 in s.stored && tag in s.stored[hit.0].tags) <==>
           (s.tags == {} || (hit.0 in s.stored && s.tags <= s.stored[hit.0].tags));
  }

  /** The same, said of the search itself: what is in the window are hits, in non-increasing order, and a hit
    * is left out only when the window is full of hits that are no less similar. */
  lemma WindowHoldsTheNearest(s: Search, id: Id, similarity: real)
    requires Legal(s)
    ensures var w := SemanticWindow(s);
            && |w| <= 2 * (s.topK + s.offset)
            && (forall i | 0 <= i < |w| :: IsHit(s, w[i].0, w[i].1))
            && (forall i, j | 0 <= i < j < |w| :: w[i].0 != w[j].0 && w[i].1 >= w[j].1)
            && (IsHit(s, id, similarity) && (id, similarity) !in w ==>
                  |w| == 2 * (s.topK + s.offset) && forall i | 0 <= i < |w| :: w[i].1 >= similarity)
  {
    var w := SemanticWindow(s);
    SemanticWindowIsTheTop(s);
    forall i | 0 <= i < |w|
      ensures IsHit(s, w[i].0, w[i].1)
    {
      assert w[i] in w;
      HitIsCandidate(s, w[i]);
    }
    HitIsCandidate(s, (id, similarity));
    if IsHit(s, id, similarity) && (id, similarity) !in w {
      CandidatesAre(s, s.table);
      WholeWindow(s, (id, similarity));
    }
  }

  // A window that is not full holds every candidate.
  lemma WholeWindow(s: Search, hit: (Id, real))
    requires hit in Candidates(s, s.table) && hit !in SemanticWindow(s)
    ensures |SemanticWindow(s)| == 2 * Budget(s)
  {
    var c := Candidates(s, s.table);
    StableSort.SortSorts(c, Similarity);
    StableSort.PermutationMembers(StableSort.Sort(c, Similarity), c);
  }

  lemma DistinctFirsts(a: seq<(Id, real)>, b: seq<(Id, real)>)
    requires multiset(a) == multiset(b)
    requires forall i, j | 0 <= i < j < |a| :: a[i].0 != a[j].0
    ensures forall i, j | 0 <= i < j < |b| :: b[i].0 != b[j].0
  {
    StableSort.DistinctStays(a, b);
    forall i, j | 0 <= i < j < |b|
      ensures b[i].0 != b[j].0
    {
      assert b[i] in multiset(a) && b[j] in multiset(a);
      var k :| 0 <= k < |a| && a[k] == b[i];
      var l :| 0 <= l < |a| && a[l] == b[j];
      assert k != l;
    }
  }

  lemma HitIsEligible(s: Search, hit: (Id, real))
    requires Legal(s) && hit in SemanticWindow(s)
    ensures Eligible(s, hit.0)
  {
    CandidatesAre(s, s.table);
    StableSort.TakenAreLargest(Candidates(s, s.table), Similarity, 2 * Budget(s));
    assert IsCandidate(s, s.table, hit);
  }

  /** Scope is decided before the window is cut, so what fusion filters again after it can only be pins the
    * caller hides. */
  lemma FusionHidesOnlyPins(s: Search, hit: (Id, real))
    requires Legal(s) && hit in SemanticWindow(s) && hit.0 in s.stored
    ensures !Visible(QueryOf(s), s.stored[hit.0]) ==> s.stored[hit.0].pinned && !s.includePinned
  {
    HitIsEligible(s, hit);
  }

  lemma KeywordWindowKeeps(s: Search)
    requires Legal(s)
    ensures NoRepeats(KeywordWindow(s)) && |KeywordWindow(s)| <= 2 * Budget(s)
    ensures forall x | x in KeywordWindow(s) :: x in s.ranking && x.id !in Ids(FloatedPins(s))
  {
    var survivors := Without(s.ranking, Ids(FloatedPins(s)));
    StoreSearchIsPrefix(s.ranking, 2 * Budget(s), Ids(FloatedPins(s)));
    WithoutKeeps(s.ranking, Ids(FloatedPins(s)));
    forall x | x in KeywordWindow(s)
      ensures x in survivors
    {
    }
  }

  // The pins that float, of these
  function FloatingOf(pins: seq<Memory>, includePinned: bool, pinnedLimit: nat): seq<Memory> {
    if !includePinned then [] else if pinnedLimit < |pins| then pins[..pinnedLimit] else pins
  }

  lemma KeywordWindowIs(s: Search, floats: seq<Memory>, rest: seq<Memory>)
    requires Legal(s) && floats == FloatedPins(s) && IsLeft(floats, s.ranking, rest)
    ensures KeywordWindow(s) == Take(rest, 2 * Budget(s))
  {
    LeftIsWithout(floats, s.ranking, rest);
    StoreSearchIsPrefix(s.ranking, 2 * Budget(s), Ids(floats));
  }

  /** Fusion is given the pins that float, of the ranking without them as many rows as twice the budget, and
    * the semantic window, with the caller's parameters unchanged. */
  lemma FusesTheWindows(s: Search, floats: seq<Memory>, rest: seq<Memory>)
    requires Legal(s) && floats == FloatingOf(s.pins, s.includePinned, s.pinnedLimit) && IsLeft(floats, s.ranking, rest)
    ensures var q := QueryOf(s);
            && q.floated == floats && q.keyword == Take(rest, 2 * (s.topK + s.offset)) && q.semantic == SemanticWindow(s)
            && q.stored == s.stored && q.includePinned == s.includePinned && q.tags == s.tags && q.project == s.project
            && q.topK == s.topK && q.offset == s.offset
  {
    FloatsWhenAsked(s.pins, s.includePinned, s.pinnedLimit);
    assert FloatedPins(s) == floats;
    KeywordWindowIs(s, floats, rest);
  }

  function Firsts(hits: seq<(Id, real)>): seq<Id> {
    seq(|hits|, i requires 0 <= i < |hits| => hits[i].0)
  }

  lemma FirstsDistinct(hits: seq<(Id, real)>)
    requires forall i, j | 0 <= i < j < |hits| :: hits[i].0 != hits[j].0
    ensures Distinct(Firsts(hits))
  {
  }

  lemma SemanticWindowKeeps(s: Search)
    requires Legal(s)
    ensures Distinct(Firsts(SemanticWindow(s))) && |SemanticWindow(s)| <= 2 * Budget(s)
    ensures forall id | id in Firsts(SemanticWindow(s)) :: id !in Ids(FloatedPins(s))
  {
    var w := SemanticWindow(s);
    CandidatesAre(s, s.table);
    StableSort.SortSorts(Candidates(s, s.table), Similarity);
    DistinctFirsts(Candidates(s, s.table), StableSort.Sort(Candidates(s, s.table), Similarity));
    FirstsDistinct(w);
    forall id | id in Firsts(w)
      ensures id !in Ids(FloatedPins(s))
    {
      var i :| 0 <= i < |w| && w[i].0 == id;
      HitIsEligible(s, w[i]);
    }
  }

  /** Both windows are what fusion relies on. */
  lemma SearchIsWellFormed(s: Search)
    requires Legal(s)
    ensures WellFormed(QueryOf(s))
  {
    KeywordWindowKeeps(s);
    SemanticWindowKeeps(s);
    assert SemanticIds(QueryOf(s)) == Firsts(SemanticWindow(s));
    assert NoRepeats(FloatedPins(s));
  }
}
