/** How far hits of both channels lead a hybrid page: budgets up to 30, and no further. */
module HybridLimits {
  import opened Common
  import opened SearchStream
  import opened Fusion
  import opened HybridSearch
  import E = EmbeddingStore
  import StableSort

  // Behind the floated pins, what both channels found comes before what one channel found.
  ghost predicate HybridsLead(page: seq<Scored>) {
    forall i, j :: 0 <= i < j < |page| && page[j].channel == Hybrid ==> page[i].channel in {PinnedFloat, Hybrid}
  }

  ghost predicate AlwaysLead(budget: nat) {
    forall s, order :: Legal(s) && Budget(s) == budget && Enumerates(order, QueryOf(s)) ==>
      HybridsLead(HybridPage(QueryOf(s), order))
  }

  lemma StreamLeads(q: Query, order: seq<Id>, i: nat, j: nat)
    requires WellFormed(q) && Enumerates(order, q) && q.topK + q.offset <= 30
    requires i < j < |Floats(q.floated) + ShownAll(Merged(q, order))|
    requires (Floats(q.floated) + ShownAll(Merged(q, order)))[j].channel == Hybrid
    ensures (Floats(q.floated) + ShownAll(Merged(q, order)))[i].channel in {PinnedFloat, Hybrid}
  {
    var m, n := Merged(q, order), |q.floated|;
    var s := Floats(q.floated) + ShownAll(m);
    if i < n {
      assert s[i] == Float(q.floated[i]);
    } else {
      assert s[i] == Shown(m[i - n]) && s[j] == Shown(m[j - n]);
      MergedHitsLead(q, order, i - n, j - n);
    }
  }

  /** On every page whose budget is at most 30, whatever the windows hold. */
  lemma HybridHitsLead(q: Query, order: seq<Id>)
    requires WellFormed(q) && Enumerates(order, q) && q.topK + q.offset <= 30
    ensures HybridsLead(HybridPage(q, order))
  {
    var s := Floats(q.floated) + ShownAll(Merged(q, order));
    var page := HybridPage(q, order);
    forall i, j | 0 <= i < j < |page| && page[j].channel == Hybrid
      ensures page[i].channel in {PinnedFloat, Hybrid}
    {
      SliceIndex(s, q.offset, q.offset + q.topK, i);
      SliceIndex(s, q.offset, q.offset + q.topK, j);
      StreamLeads(q, order, q.offset + i, q.offset + j);
    }
  }

  // ---------- a search that ties ----------

  function Word(c: char, n: nat): Id {
    seq(n, _ => c)
  }

  // 62 keyword hits; 61 pins that the caller hides, all more similar than the last of those hits.
  function TieRanking(): seq<Memory> {
    seq(62, i requires 0 <= i < 62 => Memory(Word('k', i + 1), false, None, {}))
  }

  function TieHit(i: nat): Id {
    if i < 61 then Word('g', i + 1) else Word('k', 62)
  }

  const SPACE := E.Space("p", "m", "f")

  const DIRECTION: seq<real> := [1.0, 0.0]

  // Points of the unit circle, further and further from the query's direction.
  function Share(i: nat): real {
    1.0 / (1 + i * i) as real
  }

  function Cosine(i: nat): real {
    2.0 * Share(i) - 1.0
  }

  function UnitVector(i: nat): seq<real> {
    [Cosine(i), 2.0 * i as real * Share(i)]
  }

  function TieRow(i: nat): E.Row {
    E.Row(SPACE, None, E.HashOf(TieHit(i)), E.Vector(TieHit(i), UnitVector(i)))
  }

  function TieTable(): seq<(Id, E.Row)> {
    seq(62, i requires 0 <= i < 62 => (TieHit(i), TieRow(i)))
  }

  // The first and the last keyword hit, the other keyword hits, the hidden pins.
  function TieWord(i: nat): Id {
    if i == 0 then Word('k', 1) else if i == 1 then Word('k', 62) else if i < 62 then Word('k', i)
    else Word('g', i - 61)
  }

  function TieOrder(): seq<Id> {
    seq(123, i requires 0 <= i < 123 => TieWord(i))
  }

  function TieStored(): map<Id, Memory> {
    map id | id in TieOrder() :: Memory(id, id != "" && id[0] == 'g', None, {})
  }

  function Tie(topK: nat): Search {
    Search(TieRanking(), [], TieTable(), TieStored(), SPACE, E.Snapshot(false, None, 0.0), DIRECTION,
           false, 0, {}, None, topK, 0)
  }

  lemma TieIsLegal(topK: nat)
    ensures Legal(Tie(topK))
  {
    var r, t := TieRanking(), TieTable();
    forall i, j | 0 <= i < j < |r|
      ensures r[i].id != r[j].id
    {
      assert |r[i].id| == i + 1 && |r[j].id| == j + 1;
    }
    forall i, j | 0 <= i < j < |t|
      ensures t[i].0 != t[j].0
    {
      assert |t[i].0| == i + 1 && |t[j].0| == j + 1;
    }
  }

  lemma DotPair(a: seq<real>, b: seq<real>)
    requires |a| == 2 && |b| == 2
    ensures Dot(a, b) == a[0] * b[0] + a[1] * b[1]
  {
    assert a[1..][1..] == [] && b[1..][1..] == [];
    assert Dot(a[1..][1..], b[1..][1..]) == 0.0;
    assert Dot(a[1..], b[1..]) == a[1] * b[1];
  }

  lemma ShareOfOne(i: nat)
    ensures Share(i) * (1.0 + i as real * i as real) == 1.0
  {
    assert (1 + i * i) as real == 1.0 + i as real * i as real;
  }

  lemma OnTheCircle(x: real, a: real)
    requires a * (1.0 + x * x) == 1.0
    ensures (2.0 * a - 1.0) * (2.0 * a - 1.0) + (2.0 * x * a) * (2.0 * x * a) == 1.0
  {
    calc {
      (2.0 * a - 1.0) * (2.0 * a - 1.0) + (2.0 * x * a) * (2.0 * x * a);
      4.0 * a * (a * (1.0 + x * x)) - 4.0 * a + 1.0;
      1.0;
    }
  }

  lemma UnitVectorIsUnit(i: nat)
    ensures Dot(UnitVector(i), UnitVector(i)) == 1.0 && Dot(UnitVector(i), DIRECTION) == Cosine(i)
  {
    DotPair(UnitVector(i), UnitVector(i));
    DotPair(UnitVector(i), DIRECTION);
    ShareOfOne(i);
    OnTheCircle(i as real, Share(i));
  }

  lemma CosineFalls(i: nat, j: nat)
    requires i <= j
    ensures Cosine(i) >= Cosine(j)
  {
    assert i * i <= j * j by {
      assert i * i <= i * j;
      assert i * j <= j * j;
    }
    ReciprocalsFall((1 + i * i) as real, (1 + j * j) as real);
  }

  lemma ReciprocalsFall(x: real, y: real)
    requires 0.0 < x <= y
    ensures 1.0 / x >= 1.0 / y
  {
    assert 1.0 / x - 1.0 / y == (y - x) / (x * y);
  }

  // All vectors have length one, as the adapters return them.
  predicate Normalised(s: Search) {
    && Dot(s.vector, s.vector) == 1.0
    && forall i | 0 <= i < |s.table| ::
         var p := s.table[i].1.payload; p.Vector? ==> Dot(p.numbers, p.numbers) == 1.0
  }

  lemma TieIsNormalised(topK: nat)
    ensures Normalised(Tie(topK))
  {
    DotPair(DIRECTION, DIRECTION);
    forall i | 0 <= i < 62
      ensures Dot(UnitVector(i), UnitVector(i)) == 1.0
    {
      UnitVectorIsUnit(i);
    }
  }

  function TieWindow(n: nat): seq<(Id, real)> {
    seq(n, i requires 0 <= i < n => (TieHit(i), Cosine(i)))
  }

  lemma LastCandidate(s: Search, table: seq<(Id, E.Row)>)
    requires table != [] && Comparable(s, table[|table| - 1].1) && Eligible(s, table[|table| - 1].0)
    ensures var (id, row) := table[|table| - 1];
            Candidates(s, table) == Candidates(s, table[..|table| - 1]) + [(id, Dot(row.payload.numbers, s.vector))]
  {
  }

  lemma {:induction false} TieCandidates(topK: nat, n: nat)
    requires n <= 62
    ensures Candidates(Tie(topK), TieTable()[..n]) == TieWindow(n)
  {
    if n > 0 {
      TieCandidates(topK, n - 1);
      UnitVectorIsUnit(n - 1);
      var table := TieTable()[..n];
      assert table[..n - 1] == TieTable()[..n - 1] && table[n - 1] == (TieHit(n - 1), TieRow(n - 1));
      LastCandidate(Tie(topK), table);
      assert TieWindow(n) == TieWindow(n - 1) + [(TieHit(n - 1), Cosine(n - 1))];
    }
  }

  lemma WholeRanking(ranking: seq<Memory>, n: nat)
    requires |ranking| <= n
    ensures StoreSearch(ranking, n, 0, {}) == ranking
  {
  }

  lemma TieWindowFalls()
    ensures StableSort.NonIncreasing(TieWindow(62), Similarity)
  {
    forall i, j | 0 <= i <= j < 62
      ensures Similarity(TieWindow(62)[i]) >= Similarity(TieWindow(62)[j])
    {
      CosineFalls(i, j);
    }
  }

  lemma TieSemanticWindow(topK: nat)
    requires topK >= 31
    ensures SemanticWindow(Tie(topK)) == TieWindow(62)
  {
    TieCandidates(topK, 62);
    assert TieTable()[..62] == TieTable();
    TieWindowFalls();
    StableSort.SortedStays(TieWindow(62), Similarity);
  }

  lemma TieWindows(topK: nat)
    requires topK >= 31
    ensures QueryOf(Tie(topK)).keyword == TieRanking() && QueryOf(Tie(topK)).semantic == TieWindow(62)
  {
    TieSemanticWindow(topK);
    WholeRanking(TieRanking(), 2 * topK);
    assert FloatedPins(Tie(topK)) == [] && Ids([]) == {};
  }

  lemma TieIds(topK: nat)
    requires topK >= 31
    ensures var q := QueryOf(Tie(topK));
            && |KeywordIds(q)| == 62 && (forall i | 0 <= i < 62 :: KeywordIds(q)[i] == Word('k', i + 1))
            && |SemanticIds(q)| == 62 && (forall i | 0 <= i < 62 :: SemanticIds(q)[i] == TieHit(i))
  {
    TieWindows(topK);
  }

  lemma TieOrderIsDistinct()
    ensures Distinct(TieOrder())
  {
    forall i, j | 0 <= i < j < 123
      ensures TieWord(i) != TieWord(j)
    {
      assert |TieWord(i)| == |TieWord(j)| ==> TieWord(i)[0] == 'k' && TieWord(j)[0] == 'g';
    }
  }

  lemma TieWordIsFound(topK: nat, i: nat)
    requires topK >= 31 && i < 123
    ensures var q := QueryOf(Tie(topK)); TieWord(i) in KeywordIds(q) || TieWord(i) in SemanticIds(q)
  {
    var q := QueryOf(Tie(topK));
    TieIds(topK);
    if i < 62 {
      assert KeywordIds(q)[if i == 0 then 0 else if i == 1 then 61 else i - 1] == TieWord(i);
    } else {
      assert SemanticIds(q)[i - 62] == TieWord(i);
    }
  }

  lemma TieHitIsWalked(i: nat)
    requires i < 62
    ensures Word('k', i + 1) in TieOrder() && TieHit(i) in TieOrder()
  {
    assert TieOrder()[if i == 0 then 0 else if i == 61 then 1 else i + 1] == Word('k', i + 1);
    assert TieOrder()[if i == 61 then 1 else i + 62] == TieHit(i);
  }

  lemma TieEnumerates(topK: nat)
    requires topK >= 31
    ensures Enumerates(TieOrder(), QueryOf(Tie(topK)))
  {
    var q := QueryOf(Tie(topK));
    TieIds(topK);
    TieOrderIsDistinct();
    forall i | 0 <= i < 123
      ensures TieOrder()[i] in KeywordIds(q) || TieOrder()[i] in SemanticIds(q)
    {
      TieWordIsFound(topK, i);
    }
    forall i | 0 <= i < 62
      ensures KeywordIds(q)[i] in TieOrder() && SemanticIds(q)[i] in TieOrder()
    {
      TieHitIsWalked(i);
    }
  }

  function TieSemanticRank(i: nat): Option<nat> {
    if i == 61 then Some(62) else None
  }

  lemma RankOf(ids: seq<Id>, i: nat)
    requires Distinct(ids) && i < |ids|
    ensures Lookup(Ranking(ids), ids[i]) == Some(i + 1)
  {
    RankingIsPosition(ids);
  }

  lemma NoRank(ids: seq<Id>, id: Id)
    requires Distinct(ids) && id !in ids
    ensures Lookup(Ranking(ids), id) == None
  {
    RankingIsPosition(ids);
  }

  lemma KeywordEntry(q: Query, i: nat)
    requires WellFormed(q) && i < |q.keyword| && Visible(q, q.keyword[i])
    ensures var id := q.keyword[i].id;
            && EntryOf(q, id).Some?
            && EntryOf(q, id).value.keywordRank == Some(i + 1)
            && EntryOf(q, id).value.semanticRank == Lookup(Ranking(SemanticIds(q)), id)
  {
    KeywordIdsDistinct(q);
    RankOf(KeywordIds(q), i);
    assert KeywordIds(q)[i] == q.keyword[i].id;
  }

  lemma TieRank(topK: nat, i: nat)
    requires topK >= 31 && i < 62
    ensures var q, id := QueryOf(Tie(topK)), Word('k', i + 1);
            && EntryOf(q, id).Some?
            && EntryOf(q, id).value.keywordRank == Some(i + 1)
            && EntryOf(q, id).value.semanticRank == TieSemanticRank(i)
  {
    var q, id := QueryOf(Tie(topK)), Word('k', i + 1);
    TieIsLegal(topK);
    SearchIsWellFormed(Tie(topK));
    TieWindows(topK);
    TieIds(topK);
    KeywordEntry(q, i);
    TieSemanticRankIs(SemanticIds(q), i);
  }

  lemma TieSemanticRankIs(ids: seq<Id>, i: nat)
    requires i < 62 && Distinct(ids) && |ids| == 62 && forall j | 0 <= j < 62 :: ids[j] == TieHit(j)
    ensures Lookup(Ranking(ids), Word('k', i + 1)) == TieSemanticRank(i)
  {
    var id := Word('k', i + 1);
    if i == 61 {
      RankOf(ids, 61);
    } else {
      forall j | 0 <= j < 62
        ensures ids[j] != id
      {
        assert |TieHit(j)| == |id| ==> TieHit(j)[0] == 'g' && id[0] == 'k';
      }
      NoRank(ids, id);
    }
  }

  lemma HiddenPin(q: Query, id: Id)
    requires WellFormed(q) && id !in KeywordIds(q) && id in q.stored && q.stored[id].pinned && !q.includePinned
    ensures EntryOf(q, id).None?
  {
    KeywordIdsDistinct(q);
    RankingIsPosition(KeywordIds(q));
  }

  lemma TieIdsBeginWithK(topK: nat, i: nat)
    requires topK >= 31
    ensures Word('g', i + 1) !in KeywordIds(QueryOf(Tie(topK)))
  {
    var q := QueryOf(Tie(topK));
    TieIds(topK);
    forall j | 0 <= j < |KeywordIds(q)|
      ensures KeywordIds(q)[j] != Word('g', i + 1)
    {
      assert Word('g', i + 1)[0] == 'g' && KeywordIds(q)[j][0] == 'k';
    }
  }

  lemma TieHidesPins(topK: nat, i: nat)
    requires topK >= 31 && i < 61
    ensures EntryOf(QueryOf(Tie(topK)), Word('g', i + 1)).None?
  {
    TieIsLegal(topK);
    SearchIsWellFormed(Tie(topK));
    TieIdsBeginWithK(topK, i);
    assert TieOrder()[i + 62] == Word('g', i + 1);
    HiddenPin(QueryOf(Tie(topK)), Word('g', i + 1));
  }

  lemma ScoreBound(i: nat)
    requires i < 62
    ensures Score(Some(i + 1), TieSemanticRank(i)) <= 1.0 / 61.0
    ensures i in {0, 61} ==> Score(Some(i + 1), TieSemanticRank(i)) == 1.0 / 61.0
  {
    AtSixtyTwo();
    ReciprocalFalls(1, i + 1);
  }

  lemma TieKeywordScore(topK: nat, i: nat)
    requires topK >= 31 && i < 62
    ensures var q, id := QueryOf(Tie(topK)), Word('k', i + 1);
            EntryOf(q, id).Some? && EntryOf(q, id).value.score == Score(Some(i + 1), TieSemanticRank(i))
  {
    TieIsLegal(topK);
    SearchIsWellFormed(Tie(topK));
    TieRank(topK, i);
    EntryFacts(QueryOf(Tie(topK)), Word('k', i + 1));
  }

  // Nothing scores more than the first keyword hit, and the last one, found by both channels, ties with it.
  lemma TieScores(topK: nat, i: nat)
    requires topK >= 31 && i < 123 && EntryOf(QueryOf(Tie(topK)), TieWord(i)).Some?
    ensures EntryOf(QueryOf(Tie(topK)), TieWord(i)).value.score <= 1.0 / 61.0
    ensures i < 2 ==> EntryOf(QueryOf(Tie(topK)), TieWord(i)).value.score == 1.0 / 61.0
  {
    if i < 62 {
      var at := if i == 0 then 0 else if i == 1 then 61 else i - 1;
      TieKeywordScore(topK, at);
      ScoreBound(at);
    } else {
      TieHidesPins(topK, i - 62);
    }
  }

  lemma FirstTwo(q: Query, order: seq<Id>)
    requires |order| >= 2 && EntryOf(q, order[0]).Some? && EntryOf(q, order[1]).Some?
    ensures [EntryOf(q, order[0]).value, EntryOf(q, order[1]).value] <= Entries(q, order)
  {
    var a, b := order[0], order[1];
    assert order[..2] == [a, b] && [a, b][..1] == [a] && [a][..0] == [];
    assert Entries(q, [a]) == [EntryOf(q, a).value];
    assert Entries(q, [a, b]) == [EntryOf(q, a).value, EntryOf(q, b).value];
    EntriesPrefix(q, order, 2);
  }

  lemma TieEntryScores(topK: nat)
    requires topK >= 31
    ensures forall e | e in Entries(QueryOf(Tie(topK)), TieOrder()) :: e.score <= 1.0 / 61.0
  {
    var q, order := QueryOf(Tie(topK)), TieOrder();
    TieIsLegal(topK);
    SearchIsWellFormed(Tie(topK));
    TieEnumerates(topK);
    EntriesOnce(q, order);
    forall e | e in Entries(q, order)
      ensures e.score <= 1.0 / 61.0
    {
      var i :| 0 <= i < 123 && order[i] == e.item.id;
      TieScores(topK, i);
    }
  }

  lemma TwoLead(entries: seq<Entry>, a: Entry, b: Entry, best: real)
    requires [a, b] <= entries && a.score == best && b.score == best
    requires forall e | e in entries :: e.score <= best
    ensures StableSort.Lead(entries, Points, 2)
  {
    assert entries[0] == [a, b][0] && entries[1] == [a, b][1];
  }

  lemma TieChannel(topK: nat, i: nat)
    requires topK >= 31 && i < 62 && EntryOf(QueryOf(Tie(topK)), Word('k', i + 1)).Some?
    ensures ChannelOf(EntryOf(QueryOf(Tie(topK)), Word('k', i + 1)).value) == if i == 61 then Hybrid else Keyword
  {
    TieIsLegal(topK);
    SearchIsWellFormed(Tie(topK));
    TieRank(topK, i);
    EntryFacts(QueryOf(Tie(topK)), Word('k', i + 1));
  }

  lemma TwoAhead(entries: seq<Entry>, n: nat, a: Entry, b: Entry)
    requires |entries| >= 2 && entries[..2] == [a, b] && n >= 2
    ensures |Take(entries, n)| >= 2 && Take(entries, n)[0] == a && Take(entries, n)[1] == b
  {
    assert entries[0] == entries[..2][0] && entries[1] == entries[..2][1];
  }

  // Two entries that head the unsorted list with the best score head the merged one.
  lemma LeadersAreMergedFirst(q: Query, order: seq<Id>, a: Entry, b: Entry, best: real)
    requires [a, b] <= Entries(q, order) && a.score == best && b.score == best && q.topK + q.offset >= 2
    requires forall e | e in Entries(q, order) :: e.score <= best
    ensures var m := Merged(q, order); |m| >= 2 && m[0] == a && m[1] == b
  {
    var entries := Entries(q, order);
    TwoLead(entries, a, b, best);
    StableSort.LeadersStay(entries, Points, 2);
    assert SortDescending(entries)[..2] == [a, b];
    TwoAhead(SortDescending(entries), q.topK + q.offset, a, b);
  }

  // One of the two best entries: the first keyword hit, or the one both channels found
  lemma TieBest(topK: nat, i: nat) returns (e: Entry)
    requires topK >= 31 && i < 2
    ensures EntryOf(QueryOf(Tie(topK)), TieWord(i)) == Some(e) && e.score == 1.0 / 61.0
    ensures ChannelOf(e) == if i == 0 then Keyword else Hybrid
  {
    var at := if i == 0 then 0 else 61;
    assert TieWord(i) == Word('k', at + 1);
    TieRank(topK, at);
    TieChannel(topK, at);
    TieScores(topK, i);
    e := EntryOf(QueryOf(Tie(topK)), TieWord(i)).value;
  }

  lemma TieLeaders(topK: nat) returns (a: Entry, b: Entry)
    requires topK >= 31
    ensures ChannelOf(a) == Keyword && ChannelOf(b) == Hybrid
    ensures a.score == 1.0 / 61.0 && b.score == 1.0 / 61.0
    ensures [a, b] <= Entries(QueryOf(Tie(topK)), TieOrder())
  {
    a := TieBest(topK, 0);
    b := TieBest(topK, 1);
    assert TieOrder()[0] == TieWord(0) && TieOrder()[1] == TieWord(1);
    FirstTwo(QueryOf(Tie(topK)), TieOrder());
  }

  // The first two of the merged list: a hit of one channel, then a hit of both.
  lemma TieMerged(topK: nat)
    requires topK >= 31
    ensures var m := Merged(QueryOf(Tie(topK)), TieOrder());
            |m| >= 2 && ChannelOf(m[0]) == Keyword && ChannelOf(m[1]) == Hybrid
  {
    var a, b := TieLeaders(topK);
    TieEntryScores(topK);
    LeadersAreMergedFirst(QueryOf(Tie(topK)), TieOrder(), a, b, 1.0 / 61.0);
  }

  /** For every larger budget: one page, of a search the service can receive, on which a hit of one channel
    * comes before a hit of both. */
  lemma HybridHitTrails(topK: nat)
    requires topK >= 31
    ensures Legal(Tie(topK)) && Normalised(Tie(topK)) && Budget(Tie(topK)) == topK
    ensures Enumerates(TieOrder(), QueryOf(Tie(topK)))
    ensures var page := HybridPage(QueryOf(Tie(topK)), TieOrder());
            |page| >= 2 && page[0].channel == Keyword && page[1].channel == Hybrid
  {
    TieIsLegal(topK);
    TieIsNormalised(topK);
    TieEnumerates(topK);
    TieMerged(topK);
    assert QueryOf(Tie(topK)).floated == [] && QueryOf(Tie(topK)).offset == 0 && QueryOf(Tie(topK)).topK == topK;
    FirstTwoAreShown(QueryOf(Tie(topK)), TieOrder());
  }

  // With nothing floated the first page begins with the first two of the merged list.
  lemma FirstTwoAreShown(q: Query, order: seq<Id>)
    requires q.floated == [] && q.offset == 0 && q.topK >= 2 && |Merged(q, order)| >= 2
    ensures var page, m := HybridPage(q, order), Merged(q, order);
            |page| >= 2 && page[0].channel == ChannelOf(m[0]) && page[1].channel == ChannelOf(m[1])
  {
    var s := ShownAll(Merged(q, order));
    assert Floats(q.floated) + s == s;
    assert HybridPage(q, order)[0] == s[0] && HybridPage(q, order)[1] == s[1];
  }

  /** What both channels found leads every hybrid page of a budget `top_k + offset` exactly when that budget
    * is at most 30: the windows then end at rank 60, where two reciprocals still outweigh the best one. */
  lemma HybridHitsLeadUpToThirty(budget: nat)
    ensures AlwaysLead(budget) <==> budget <= 30
  {
    if budget <= 30 {
      forall s, order | Legal(s) && Budget(s) == budget && Enumerates(order, QueryOf(s))
        ensures HybridsLead(HybridPage(QueryOf(s), order))
      {
        SearchIsWellFormed(s);
        HybridHitsLead(QueryOf(s), order);
      }
    } else {
      HybridHitTrails(budget);
      assert !HybridsLead(HybridPage(QueryOf(Tie(budget)), TieOrder()));
    }
  }
}
