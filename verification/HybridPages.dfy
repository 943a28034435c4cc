/** What is on a hybrid page, place by place: the floated pins, then every candidate the filters allow,
  * behind exactly those that score more or were walked earlier with the same score. */
module HybridPages {
  import opened Common
  import opened SearchStream
  import opened Fusion
  import opened StableRank
  import StableSort

  // ---------- one candidate, read off the windows ----------

  // How many rows stand before it
  function Place(ids: seq<Id>, id: Id): nat {
    if ids == [] || ids[0] == id then 0 else 1 + Place(ids[1..], id)
  }

  lemma {:induction false} PlaceIsIndex(ids: seq<Id>, i: nat)
    requires Distinct(ids) && i < |ids|
    ensures Place(ids, ids[i]) == i
  {
    if i > 0 {
      assert ids[0] != ids[i] && ids[1..][i - 1] == ids[i];
      PlaceIsIndex(ids[1..], i - 1);
    }
  }

  function Share(ids: seq<Id>, id: Id): real {
    if id in ids then 1.0 / (61 + Place(ids, id)) as real else 0.0
  }

  function ScoreOf(q: Query, id: Id): real {
    Share(KeywordIds(q), id) + Share(SemanticIds(q), id)
  }

  function RowOf(q: Query, id: Id): Option<Memory> {
    var ids := KeywordIds(q);
    if id in ids && Place(ids, id) < |q.keyword| then Some(q.keyword[Place(ids, id)])
    else if id in q.stored then Some(q.stored[id])
    else None
  }

  // It has a row, is no pin that floats or that the caller hides, and carries every tag and the project
  // asked for; a pin of no project belongs to all of them.
  predicate Qualifies(q: Query, id: Id) {
    var row := RowOf(q, id);
    && row.Some?
    && (row.value.pinned ==> q.includePinned && forall p | p in q.floated :: p.id != row.value.id)
    && (forall tag | tag in q.tags :: tag in row.value.tags)
    && (q.project == None || q.project == Some("") || row.value.project == q.project
        || (row.value.pinned && row.value.project == None))
  }

  function ShownFor(q: Query, id: Id): Scored
    requires Qualifies(q, id)
  {
    var k, s := KeywordIds(q), SemanticIds(q);
    Scored(RowOf(q, id).value,
           if id in k && id in s then Hybrid else if id in k then Keyword else Semantic,
           Some(ScoreOf(q, id)),
           if id in s && Place(s, id) < |q.semantic| then Some(q.semantic[Place(s, id)].1) else None,
           if id in k then Some(Place(k, id) + 1) else None)
  }

  lemma RankIsPlace(ids: seq<Id>, id: Id)
    requires Distinct(ids)
    ensures Lookup(Ranking(ids), id) == if id in ids then Some(Place(ids, id) + 1) else None
    ensures id in ids ==> Place(ids, id) < |ids| && ids[Place(ids, id)] == id
  {
    RankingIsPosition(ids);
    if id in ids {
      var i :| 0 <= i < |ids| && ids[i] == id;
      PlaceIsIndex(ids, i);
      assert Ranking(ids)[ids[i]] == i + 1;
    }
  }

  lemma ScoreIsShares(q: Query, id: Id)
    requires WellFormed(q)
    ensures Score(Lookup(Ranking(KeywordIds(q)), id), Lookup(Ranking(SemanticIds(q)), id)) == ScoreOf(q, id)
  {
    KeywordIdsDistinct(q);
    RankIsPlace(KeywordIds(q), id);
    RankIsPlace(SemanticIds(q), id);
  }

  lemma RowIsItem(q: Query, id: Id)
    requires WellFormed(q)
    ensures ItemOf(q, id) == RowOf(q, id)
  {
    KeywordIdsDistinct(q);
    RankIsPlace(KeywordIds(q), id);
    RankingIsPosition(KeywordIds(q));
  }

  lemma VisibleIsQualified(q: Query, item: Memory)
    ensures Visible(q, item) <==>
            && (item.pinned ==> q.includePinned && forall p | p in q.floated :: p.id != item.id)
            && (forall tag | tag in q.tags :: tag in item.tags)
            && (q.project == None || q.project == Some("") || item.project == q.project
                || (item.pinned && item.project == None))
  {
    assert item.id in Ids(q.floated) <==> exists p :: p in q.floated && p.id == item.id by {
      if exists p :: p in q.floated && p.id == item.id {
        var p :| p in q.floated && p.id == item.id;
        var i :| 0 <= i < |q.floated| && q.floated[i] == p;
        assert q.floated[i].id == item.id;
      }
      if item.id in Ids(q.floated) {
        var i :| 0 <= i < |q.floated| && q.floated[i].id == item.id;
        assert q.floated[i] in q.floated;
      }
    }
  }

  /** Fusion makes an entry of exactly the candidates that qualify, and shows their rows, channels, exact
    * scores, similarities and keyword ranks. */
  lemma EntryIsExact(q: Query, id: Id)
    requires WellFormed(q) && (id in KeywordIds(q) || id in SemanticIds(q))
    ensures EntryOf(q, id).Some? <==> Qualifies(q, id)
    ensures Qualifies(q, id) ==>
              Shown(EntryOf(q, id).value) == ShownFor(q, id) && EntryOf(q, id).value.score == ScoreOf(q, id)
  {
    RowIsItem(q, id);
    ScoreIsShares(q, id);
    if RowOf(q, id).Some? {
      VisibleIsQualified(q, RowOf(q, id).value);
    }
    KeywordIdsDistinct(q);
    RankIsPlace(KeywordIds(q), id);
    RankIsPlace(SemanticIds(q), id);
  }

  // ---------- all of them ----------

  function Allowed(q: Query, order: seq<Id>): set<nat> {
    set j | 0 <= j < |order| && Qualifies(q, order[j])
  }

  // The candidates that belong before the i-th
  function Ahead(q: Query, order: seq<Id>, i: nat): set<nat>
    requires i < |order|
  {
    set j | 0 <= j < |order| && Qualifies(q, order[j])
            && (ScoreOf(q, order[j]) > ScoreOf(q, order[i])
                || (j < i && ScoreOf(q, order[j]) == ScoreOf(q, order[i])))
  }

  predicate Walks(q: Query, order: seq<Id>) {
    forall i | 0 <= i < |order| :: order[i] in KeywordIds(q) || order[i] in SemanticIds(q)
  }

  function Better(q: Query, order: seq<Id>, bound: real): set<nat> {
    set j | 0 <= j < |order| && Qualifies(q, order[j]) && ScoreOf(q, order[j]) > bound
  }

  function Equal(q: Query, order: seq<Id>, bound: real): set<nat> {
    set j | 0 <= j < |order| && Qualifies(q, order[j]) && ScoreOf(q, order[j]) == bound
  }

  lemma SizeWith(all: set<nat>, init: set<nat>, n: nat, more: bool)
    requires n !in init && all == if more then init + {n} else init
    ensures |all| == |init| + (if more then 1 else 0)
  {
  }

  lemma MoreAllowed(q: Query, order: seq<Id>)
    requires order != []
    ensures var n := |order| - 1;
            |Allowed(q, order)| == |Allowed(q, order[..n])| + (if Qualifies(q, order[n]) then 1 else 0)
  {
    var n := |order| - 1;
    SizeWith(Allowed(q, order), Allowed(q, order[..n]), n, Qualifies(q, order[n]));
  }

  lemma MoreBetter(q: Query, order: seq<Id>, bound: real)
    requires order != []
    ensures var n := |order| - 1;
            |Better(q, order, bound)| == |Better(q, order[..n], bound)|
                                         + (if Qualifies(q, order[n]) && ScoreOf(q, order[n]) > bound then 1 else 0)
  {
    var n := |order| - 1;
    SizeWith(Better(q, order, bound), Better(q, order[..n], bound), n,
             Qualifies(q, order[n]) && ScoreOf(q, order[n]) > bound);
  }

  lemma MoreEqual(q: Query, order: seq<Id>, bound: real)
    requires order != []
    ensures var n := |order| - 1;
            |Equal(q, order, bound)| == |Equal(q, order[..n], bound)|
                                        + (if Qualifies(q, order[n]) && ScoreOf(q, order[n]) == bound then 1 else 0)
  {
    var n := |order| - 1;
    SizeWith(Equal(q, order, bound), Equal(q, order[..n], bound), n,
             Qualifies(q, order[n]) && ScoreOf(q, order[n]) == bound);
  }

  lemma MoreEntries(q: Query, order: seq<Id>)
    requires WellFormed(q) && order != [] && Walks(q, order)
    ensures EntryOf(q, order[|order| - 1]).Some? <==> Qualifies(q, order[|order| - 1])
    ensures var n := |order| - 1;
            && Entries(q, order) == Entries(q, order[..n])
                                    + (if Qualifies(q, order[n]) then [EntryOf(q, order[n]).value] else [])
            && (Qualifies(q, order[n]) ==> Points(EntryOf(q, order[n]).value) == ScoreOf(q, order[n]))
  {
    EntryIsExact(q, order[|order| - 1]);
  }

  lemma {:induction false} LengthIsSize(q: Query, order: seq<Id>)
    requires WellFormed(q) && Walks(q, order)
    ensures |Entries(q, order)| == |Allowed(q, order)|
    decreases |order|
  {
    if order != [] {
      LengthIsSize(q, order[..|order| - 1]);
      MoreAllowed(q, order);
      MoreEntries(q, order);
    }
  }

  lemma {:induction false} AboveIsSize(q: Query, order: seq<Id>, bound: real)
    requires WellFormed(q) && Walks(q, order)
    ensures CountAbove(Entries(q, order), Points, bound) == |Better(q, order, bound)|
    decreases |order|
  {
    if order != [] {
      var n := |order| - 1;
      AboveIsSize(q, order[..n], bound);
      MoreBetter(q, order, bound);
      MoreEntries(q, order);
      if Qualifies(q, order[n]) {
        CountSnoc(Entries(q, order[..n]), EntryOf(q, order[n]).value, Points, bound);
      }
    }
  }

  lemma {:induction false} TiesAreSize(q: Query, order: seq<Id>, bound: real)
    requires WellFormed(q) && Walks(q, order)
    ensures CountTies(Entries(q, order), Points, bound) == |Equal(q, order, bound)|
    decreases |order|
  {
    if order != [] {
      var n := |order| - 1;
      TiesAreSize(q, order[..n], bound);
      MoreEqual(q, order, bound);
      MoreEntries(q, order);
      if Qualifies(q, order[n]) {
        CountSnoc(Entries(q, order[..n]), EntryOf(q, order[n]).value, Points, bound);
      }
    }
  }

  lemma AheadIsBetterOrEarlier(q: Query, order: seq<Id>, i: nat)
    requires i < |order|
    ensures |Ahead(q, order, i)| == |Better(q, order, ScoreOf(q, order[i]))| + |Equal(q, order[..i], ScoreOf(q, order[i]))|
  {
    var a, b := Better(q, order, ScoreOf(q, order[i])), Equal(q, order[..i], ScoreOf(q, order[i]));
    assert Ahead(q, order, i) == a + b;
    assert a !! b;
  }

  lemma EntryAt(q: Query, order: seq<Id>, i: nat)
    requires WellFormed(q) && Walks(q, order) && i < |order| && Qualifies(q, order[i])
    ensures var k := |Entries(q, order[..i])|;
            && k < |Entries(q, order)| && Entries(q, order)[..k] == Entries(q, order[..i])
            && EntryOf(q, order[i]).Some? && Entries(q, order)[k] == EntryOf(q, order[i]).value
  {
    EntryIsExact(q, order[i]);
    EntriesPrefix(q, order, i + 1);
    assert order[..i + 1][..i] == order[..i];
  }

  lemma RankIsAhead(q: Query, order: seq<Id>, i: nat, k: nat)
    requires WellFormed(q) && Walks(q, order) && i < |order|
    requires k < |Entries(q, order)| && Entries(q, order)[..k] == Entries(q, order[..i])
    requires Points(Entries(q, order)[k]) == ScoreOf(q, order[i])
    ensures RankIn(Entries(q, order), Points, k) == |Ahead(q, order, i)|
  {
    var bound := ScoreOf(q, order[i]);
    AheadIsBetterOrEarlier(q, order, i);
    AboveIsSize(q, order, bound);
    TiesAreSize(q, order[..i], bound);
  }

  lemma EntryIsPutAtRank(q: Query, order: seq<Id>, i: nat)
    requires WellFormed(q) && Walks(q, order) && i < |order| && Qualifies(q, order[i])
    ensures var sorted, r := SortDescending(Entries(q, order)), |Ahead(q, order, i)|;
            |sorted| == |Allowed(q, order)| && r < |sorted| && Shown(sorted[r]) == ShownFor(q, order[i])
  {
    var k := |Entries(q, order[..i])|;
    EntryAt(q, order, i);
    EntryIsExact(q, order[i]);
    SortPutsAtRank(Entries(q, order), Points, k);
    RankIsAhead(q, order, i, k);
    LengthIsSize(q, order);
  }

  function Min(a: int, b: int): int {
    if a < b then a else b
  }

  lemma SortedLength(q: Query, order: seq<Id>)
    requires WellFormed(q) && Walks(q, order)
    ensures |SortDescending(Entries(q, order))| == |Allowed(q, order)|
  {
    LengthIsSize(q, order);
    SortKeepsLength(Entries(q, order), Points);
  }

  lemma EnumerationWalks(q: Query, order: seq<Id>)
    requires Enumerates(order, q)
    ensures Walks(q, order)
  {
    forall i | 0 <= i < |order|
      ensures order[i] in KeywordIds(q) || order[i] in SemanticIds(q)
    {
      assert order[i] in order;
    }
  }

  /** The length of a page: what the budget leaves of the floated pins and the best `top_k + offset` allowed
    * candidates. */
  lemma PageLength(q: Query, order: seq<Id>)
    requires WellFormed(q) && Enumerates(order, q)
    ensures var budget := q.topK + q.offset;
            var all := |q.floated| + Min(|Allowed(q, order)|, budget);
            |HybridPage(q, order)| == if all <= q.offset then 0 else Min(q.topK, all - q.offset)
  {
    EnumerationWalks(q, order);
    SortedLength(q, order);
  }

  /** Place `k` of a page while pins last: the pin that is `offset + k` in the float. */
  lemma PinsComeFirst(q: Query, order: seq<Id>, k: nat)
    requires k < q.topK && q.offset + k < |q.floated|
    ensures k < |HybridPage(q, order)|
    ensures HybridPage(q, order)[k] == Scored(q.floated[q.offset + k], PinnedFloat, None, None, None)
  {
  }

  /** A candidate is on the page exactly where its score puts it: behind the floated pins and the candidates
    * ahead of it, when that place is among the best `top_k + offset` and on this page. */
  lemma CandidateIsInItsPlace(q: Query, order: seq<Id>, i: nat)
    requires WellFormed(q) && Enumerates(order, q) && i < |order| && Qualifies(q, order[i])
    requires |Ahead(q, order, i)| < q.topK + q.offset
    requires q.offset <= |q.floated| + |Ahead(q, order, i)| < q.offset + q.topK
    ensures var at := |q.floated| + |Ahead(q, order, i)| - q.offset;
            at < |HybridPage(q, order)| && HybridPage(q, order)[at] == ShownFor(q, order[i])
  {
    EnumerationWalks(q, order);
    EntryIsPutAtRank(q, order, i);
    var sorted, r := SortDescending(Entries(q, order)), |Ahead(q, order, i)|;
    var stream := Floats(q.floated) + ShownAll(Merged(q, order));
    assert Merged(q, order)[r] == sorted[r];
    assert stream[|q.floated| + r] == Shown(sorted[r]);
  }

  // A sorted entry is some candidate's, and at that candidate's rank.
  lemma RankedIsCandidate(q: Query, order: seq<Id>, r: nat) returns (i: nat)
    requires WellFormed(q) && Enumerates(order, q) && r < |SortDescending(Entries(q, order))|
    ensures i < |order| && Qualifies(q, order[i]) && |Ahead(q, order, i)| == r
    ensures Shown(SortDescending(Entries(q, order))[r]) == ShownFor(q, order[i])
  {
    var sorted := SortDescending(Entries(q, order));
    EnumerationWalks(q, order);
    SortedFacts(q, order);
    assert IsEntry(q, order, sorted[r]);
    var id := sorted[r].item.id;
    i :| 0 <= i < |order| && order[i] == id;
    EntryIsExact(q, id);
    EntryIsPutAtRank(q, order, i);
    EntryFacts(q, id);
    ShownItem(q, id);
    assert sorted[|Ahead(q, order, i)|].item.id == id;
  }

  lemma ShownItem(q: Query, id: Id)
    requires WellFormed(q) && EntryOf(q, id).Some? && Qualifies(q, id)
    requires id in KeywordIds(q) || id in SemanticIds(q)
    ensures ShownFor(q, id).item.id == id
  {
    EntryIsExact(q, id);
    EntryFacts(q, id);
  }

  lemma PastThePins(q: Query, order: seq<Id>, k: nat)
    requires k < |HybridPage(q, order)| && q.offset + k >= |q.floated|
    ensures var r := q.offset + k - |q.floated|;
            && r < q.topK + q.offset && r < |SortDescending(Entries(q, order))|
            && HybridPage(q, order)[k] == Shown(SortDescending(Entries(q, order))[r])
  {
    var m := Merged(q, order);
    var stream := Floats(q.floated) + ShownAll(m);
    SliceIndex(stream, q.offset, q.offset + q.topK, k);
    assert stream[q.offset + k] == ShownAll(m)[q.offset + k - |q.floated|];
  }

  lemma CandidateAt(q: Query, order: seq<Id>, k: nat) returns (i: nat)
    requires WellFormed(q) && Enumerates(order, q) && k < |HybridPage(q, order)| && q.offset + k >= |q.floated|
    ensures q.offset + k - |q.floated| < q.topK + q.offset
    ensures i < |order| && Qualifies(q, order[i]) && |Ahead(q, order, i)| == q.offset + k - |q.floated|
    ensures HybridPage(q, order)[k] == ShownFor(q, order[i])
  {
    PastThePins(q, order, k);
    i := RankedIsCandidate(q, order, q.offset + k - |q.floated|);
  }

  /** And nothing else is there: every place of a page shows the floated pin that belongs there, or the one
    * allowed candidate that exactly as many others are ahead of. */
  lemma HybridPageIsExact(q: Query, order: seq<Id>, k: nat)
    requires WellFormed(q) && Enumerates(order, q) && k < |HybridPage(q, order)|
    ensures var at, n := q.offset + k, |q.floated|;
            if at < n then HybridPage(q, order)[k] == Scored(q.floated[at], PinnedFloat, None, None, None)
            else at - n < q.topK + q.offset
                 && exists i :: 0 <= i < |order| && Qualifies(q, order[i]) && |Ahead(q, order, i)| == at - n
                                && HybridPage(q, order)[k] == ShownFor(q, order[i])
  {
    if q.offset + k < |q.floated| {
      PageLength(q, order);
      PinsComeFirst(q, order, k);
    } else {
      var i := CandidateAt(q, order, k);
    }
  }

  function Paged(q: Query, topK: nat, offset: nat): Query {
    q.(topK := topK, offset := offset)
  }

  lemma SameEntry(q: Query, id: Id, topK: nat, offset: nat)
    ensures EntryOf(Paged(q, topK, offset), id) == EntryOf(q, id)
  {
    var p := Paged(q, topK, offset);
    assert KeywordIds(p) == KeywordIds(q) && SemanticIds(p) == SemanticIds(q);
  }

  lemma {:induction false} SameEntries(q: Query, order: seq<Id>, topK: nat, offset: nat)
    ensures Entries(Paged(q, topK, offset), order) == Entries(q, order)
    decreases |order|
  {
    if order != [] {
      SameEntries(q, order[..|order| - 1], topK, offset);
      SameEntry(q, order[|order| - 1], topK, offset);
    }
  }

  function Fused(q: Query, order: seq<Id>): seq<Scored> {
    Floats(q.floated) + ShownAll(SortDescending(Entries(q, order)))
  }

  lemma ShownAllTake(entries: seq<Entry>, n: nat)
    ensures ShownAll(Take(entries, n)) == Take(ShownAll(entries), n)
  {
  }

  lemma SlicesTile<T>(stream: seq<T>, a: seq<T>, b: seq<T>, both: seq<T>, offset: nat, topK: nat, next: nat)
    requires a == Slice(stream, offset, offset + topK)
    requires b == Slice(stream, offset + topK, offset + topK + next)
    requires both == Slice(stream, offset, offset + (topK + next))
    ensures a + b == both
  {
    PagesTile(stream, offset, topK, next);
  }

  lemma CutNeverShows(floats: seq<Scored>, sorted: seq<Entry>, from: nat, to: nat)
    ensures Slice(floats + ShownAll(Take(sorted, to)), from, to) == Slice(floats + ShownAll(sorted), from, to)
  {
    ShownAllTake(sorted, to);
    TakeTake(ShownAll(sorted), to, to);
    SliceOfPrefix(floats, Take(ShownAll(sorted), to), ShownAll(sorted), from, to);
  }

  // The pages of one search over fixed windows, by size and offset
  ghost predicate ArePages(q: Query, order: seq<Id>, page: (nat, nat) -> seq<Scored>) {
    forall topK: nat, offset: nat {:trigger HybridPage(Paged(q, topK, offset), order)} ::
      page(topK, offset) == HybridPage(Paged(q, topK, offset), order)
  }

  // A page is a slice of everything fused: the cut at `top_k + offset` never shows.
  lemma PageOf(q: Query, order: seq<Id>, topK: nat, offset: nat)
    ensures HybridPage(Paged(q, topK, offset), order) == Slice(Fused(q, order), offset, offset + topK)
  {
    SameEntries(q, order, topK, offset);
    CutNeverShows(Floats(q.floated), SortDescending(Entries(q, order)), offset, offset + topK);
  }

  lemma PagesOf(q: Query, order: seq<Id>, page: (nat, nat) -> seq<Scored>) returns (stream: seq<Scored>)
    requires ArePages(q, order, page)
    ensures forall topK: nat, offset: nat :: page(topK, offset) == Slice(stream, offset, offset + topK)
  {
    stream := Fused(q, order);
    forall topK: nat, offset: nat
      ensures page(topK, offset) == Slice(stream, offset, offset + topK)
    {
      PageOf(q, order, topK, offset);
    }
  }

  /** Over the same windows hybrid pages tile: a page and the one that begins where it ends join to the page
    * of both budgets. */
  lemma HybridPagesTile(q: Query, order: seq<Id>, page: (nat, nat) -> seq<Scored>, offset: nat, topK: nat, next: nat)
    requires ArePages(q, order, page)
    ensures page(topK, offset) + page(next, offset + topK) == page(topK + next, offset)
  {
    var stream := PagesOf(q, order, page);
    SlicesTile(stream, page(topK, offset), page(next, offset + topK), page(topK + next, offset), offset, topK, next);
  }
}
