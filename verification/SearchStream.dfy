/** Keyword search: the pinned float, the over-fetch that makes room for excluded
rows, and pages of one combined stream: floated pins first, then the ranking
without them. */
module SearchStream {
  import opened Common

  // The store's full ranking is an arbitrary sequence without repeated ids; a LIMIT takes its prefix.

  type Id = string

  datatype Memory = Memory(id: Id, pinned: bool, project: Option<string>, tags: set<string>)

  datatype Channel = PinnedFloat | Keyword | Semantic | Hybrid

  datatype Scored = Scored(item: Memory, channel: Channel, rrf: Option<real>, similarity: Option<real>, keywordRank: Option<nat>)

  predicate NoRepeats(items: seq<Memory>) {
    forall i, j | 0 <= i < j < |items| :: items[i].id != items[j].id
  }

  // Strict project, with the pins that belong to no project; every tag asked for.
  predicate InScope(item: Memory, tags: set<string>, project: Option<string>) {
    tags <= item.tags && (project.Some? ==> item.project == project || (item.pinned && item.project.None?))
  }

  function Ids(items: seq<Memory>): (ids: set<Id>)
    ensures forall id :: id in ids <==> exists i :: 0 <= i < |items| && items[i].id == id
  {
    set i | 0 <= i < |items| :: items[i].id
  }

  // Python's s[from:to] for non-negative bounds.
  function Slice<T>(s: seq<T>, from: nat, to: nat): seq<T> {
    if from >= |s| || to <= from then [] else if to <= |s| then s[from..to] else s[from..]
  }

  function Without(items: seq<Memory>, ids: set<Id>): seq<Memory> {
    if items == [] then [] else
    (if items[0].id in ids then [] else [items[0]]) + Without(items[1..], ids)
  }

  // Only a search that excludes something filters what it fetched.
  function Survivors(fetched: seq<Memory>, exclude: set<Id>): seq<Memory> {
    if exclude != {} then Without(fetched, exclude) else fetched
  }

  // SqliteStore.search_memory over the full ranking.
  function StoreSearch(ranking: seq<Memory>, topK: nat, offset: nat, exclude: set<Id>): seq<Memory> {
    var fetched := Take(ranking, topK + offset + |exclude|);
    Slice(Survivors(fetched, exclude), offset, offset + topK)
  }

  lemma {:induction false} WithoutNone(items: seq<Memory>)
    ensures Without(items, {}) == items
  {
    if items != [] {
      WithoutNone(items[1..]);
    }
  }

  lemma {:induction false} WithoutAbsent(items: seq<Memory>, ids: set<Id>, gone: Id)
    requires forall i | 0 <= i < |items| :: items[i].id != gone
    ensures Without(items, ids) == Without(items, ids - {gone})
  {
    if items != [] {
      forall i | 0 <= i < |items[1..]| ensures items[1..][i].id != gone {
        assert items[1..][i] == items[i + 1];
      }
      WithoutAbsent(items[1..], ids, gone);
    }
  }

  lemma Tail(items: seq<Memory>)
    requires items != [] && NoRepeats(items)
    ensures NoRepeats(items[1..])
    ensures forall i | 0 <= i < |items[1..]| :: items[1..][i].id != items[0].id
  {
    forall i, j | 0 <= i < j < |items[1..]| ensures items[1..][i].id != items[1..][j].id {
      assert items[1..][i] == items[i + 1] && items[1..][j] == items[j + 1];
    }
    forall i | 0 <= i < |items[1..]| ensures items[1..][i].id != items[0].id {
      assert items[1..][i] == items[i + 1];
    }
  }

  // The head is excluded: one excluded id and one fetched row fewer.
  lemma WithoutHead(r: Memory, rest: seq<Memory>, m: nat, exclude: set<Id>)
    requires r.id in exclude && m > 0
    requires forall i | 0 <= i < |rest| :: rest[i].id != r.id
    ensures Without(Take([r] + rest, m), exclude) == Without(Take(rest, m - 1), exclude - {r.id})
    ensures Without([r] + rest, exclude) == Without(rest, exclude - {r.id})
  {
    TakeCons(r, rest, m);
    assert ([r] + rest)[1..] == rest && ([r] + Take(rest, m - 1))[1..] == Take(rest, m - 1);
    WithoutAbsent(rest, exclude, r.id);
    WithoutAbsent(Take(rest, m - 1), exclude, r.id);
  }

  lemma WithHead(r: Memory, rest: seq<Memory>, m: nat, exclude: set<Id>)
    requires r.id !in exclude && m > 0
    ensures Without(Take([r] + rest, m), exclude) == [r] + Without(Take(rest, m - 1), exclude)
    ensures Without([r] + rest, exclude) == [r] + Without(rest, exclude)
  {
    TakeCons(r, rest, m);
    assert ([r] + rest)[1..] == rest && ([r] + Take(rest, m - 1))[1..] == Take(rest, m - 1);
  }

  /** Fetching as many extra rows as there are excluded ids makes the first n survivors exact. */
  lemma {:induction false} OverfetchIsExact(ranking: seq<Memory>, n: nat, exclude: set<Id>)
    requires NoRepeats(ranking)
    ensures Take(Without(Take(ranking, n + |exclude|), exclude), n) == Take(Without(ranking, exclude), n)
  {
    if ranking == [] {
    } else {
      var r, rest, m := ranking[0], ranking[1..], n + |exclude|;
      assert ranking == [r] + rest;
      Tail(ranking);
      if r.id in exclude {
        var others := exclude - {r.id};
        assert |others| == |exclude| - 1;
        WithoutHead(r, rest, m, exclude);
        OverfetchIsExact(rest, n, others);
      } else if n > 0 {
        WithHead(r, rest, m, exclude);
        OverfetchIsExact(rest, n - 1, exclude);
        TakeCons(r, Without(rest, exclude), n);
        TakeCons(r, Without(Take(rest, m - 1), exclude), n);
      }
    }
  }

  lemma TakeCons<T>(x: T, s: seq<T>, n: nat)
    requires n > 0
    ensures Take([x] + s, n) == [x] + Take(s, n - 1)
  {
  }

  /** One row less would not do: when the excluded rows lead the ranking, the page comes up short. */
  lemma OverfetchIsNeeded(ranking: seq<Memory>, n: nat, exclude: set<Id>)
    requires n > 0 && exclude != {} && |ranking| >= n + |exclude|
    requires forall i | 0 <= i < |exclude| :: ranking[i].id in exclude
    requires forall i | |exclude| <= i < |ranking| :: ranking[i].id !in exclude
    ensures |Take(Without(Take(ranking, n + |exclude| - 1), exclude), n)| == n - 1
    ensures |Take(Without(ranking, exclude), n)| == n
  {
    WithoutLeading(ranking, exclude, |exclude|);
    WithoutLeading(Take(ranking, n + |exclude| - 1), exclude, |exclude|);
  }

  lemma {:induction false} WithoutLeading(items: seq<Memory>, exclude: set<Id>, k: nat)
    requires k <= |items|
    requires forall i | 0 <= i < k :: items[i].id in exclude
    requires forall i | k <= i < |items| :: items[i].id !in exclude
    ensures Without(items, exclude) == items[k..]
  {
    if items != [] {
      WithoutLeading(items[1..], exclude, if k > 0 then k - 1 else 0);
    }
  }

  // ---------- the combined stream ----------

  function Float(item: Memory): Scored {
    Scored(item, PinnedFloat, None, None, None)
  }

  function Ranked(item: Memory, rank: nat): Scored {
    Scored(item, Keyword, None, None, Some(rank))
  }

  function Floats(items: seq<Memory>): seq<Scored> {
    seq(|items|, i requires 0 <= i < |items| => Float(items[i]))
  }

  function Ranks(items: seq<Memory>): seq<Scored> {
    seq(|items|, i requires 0 <= i < |items| => Ranked(items[i], i + 1))
  }

  // Floated pins, then the whole ranking without them. Pages are slices of this.
  function Stream(floated: seq<Memory>, ranking: seq<Memory>): seq<Scored> {
    Floats(floated) + Ranks(Without(ranking, Ids(floated)))
  }

  // search_pinned with its limit, when pins are visible and floating is on.
  function Floated(pins: seq<Memory>, includePinned: bool, pinnedLimit: nat): seq<Memory> {
    if includePinned && pinnedLimit > 0 then Take(pins, pinnedLimit) else []
  }

  lemma SliceOfPrefix<T>(a: seq<T>, b: seq<T>, c: seq<T>, from: nat, to: nat)
    requires Take(b, to) == Take(c, to)
    ensures Slice(a + b, from, to) == Slice(a + c, from, to)
  {
    assert Take(a + b, to) == Take(a + c, to) by {
      TakeAppend(a, b, to);
      TakeAppend(a, c, to);
    }
    SliceTake(a + b, from, to);
    SliceTake(a + c, from, to);
  }

  lemma TakeAppend<T>(a: seq<T>, b: seq<T>, n: nat)
    ensures Take(a + b, n) == if n <= |a| then a[..n] else a + Take(Take(b, n), n - |a|)
  {
  }

  lemma SliceTake<T>(s: seq<T>, from: nat, to: nat)
    ensures Slice(s, from, to) == Slice(Take(s, to), from, to)
  {
  }

  lemma RanksTake(items: seq<Memory>, n: nat)
    ensures Ranks(Take(items, n)) == Take(Ranks(items), n)
  {
  }

  lemma SurvivorsOfFetched(ranking: seq<Memory>, n: nat, exclude: set<Id>)
    requires NoRepeats(ranking)
    ensures var fetched := Take(ranking, n + |exclude|);
            Take(Survivors(fetched, exclude), n) == Take(Without(ranking, exclude), n)
  {
    if exclude == {} {
      WithoutNone(ranking);
      TakeTake(ranking, n, n);
    } else {
      OverfetchIsExact(ranking, n, exclude);
    }
  }

  // What a store search slices: what survives of the rows it fetched.
  lemma Fetched(ranking: seq<Memory>, topK: nat, offset: nat, exclude: set<Id>) returns (survivors: seq<Memory>)
    requires NoRepeats(ranking)
    ensures StoreSearch(ranking, topK, offset, exclude) == Slice(survivors, offset, offset + topK)
    ensures Take(survivors, offset + topK) == Take(Without(ranking, exclude), offset + topK)
  {
    survivors := Survivors(Take(ranking, topK + offset + |exclude|), exclude);
    SurvivorsOfFetched(ranking, topK + offset, exclude);
  }

  lemma SliceFromStart<T>(s: seq<T>, n: nat)
    ensures Slice(s, 0, n) == Take(s, n)
  {
  }

  // A whole first page of the store is a prefix of the surviving ranking.
  lemma StoreSearchIsPrefix(ranking: seq<Memory>, fetched: nat, exclude: set<Id>)
    requires NoRepeats(ranking)
    ensures StoreSearch(ranking, fetched, 0, exclude) == Take(Without(ranking, exclude), fetched)
  {
    var survivors := Fetched(ranking, fetched, 0, exclude);
    SliceFromStart(survivors, fetched);
  }

  /** Whatever prefix of at least `offset + topK` rows was fetched, the page is the stream's slice. */
  lemma PageIsSlice(floated: seq<Memory>, ranking: seq<Memory>, fetched: nat, topK: nat, offset: nat)
    requires NoRepeats(ranking) && fetched >= offset + topK
    ensures Slice(Floats(floated) + Ranks(StoreSearch(ranking, fetched, 0, Ids(floated))), offset, offset + topK)
         == Slice(Stream(floated, ranking), offset, offset + topK)
  {
    var survivors := Without(ranking, Ids(floated));
    StoreSearchIsPrefix(ranking, fetched, Ids(floated));
    RanksTake(survivors, fetched);
    TakeTake(Ranks(survivors), fetched, offset + topK);
    SliceOfPrefix(Floats(floated), Ranks(Take(survivors, fetched)), Ranks(survivors), offset, offset + topK);
  }

  lemma TakeTake<T>(s: seq<T>, m: nat, n: nat)
    requires n <= m
    ensures Take(Take(s, m), n) == Take(s, n)
  {
  }

  method Combine(floated: seq<Memory>, items: seq<Memory>) returns (combined: seq<Scored>)
    ensures combined == Floats(floated) + Ranks(items)
  {
    combined := Floats(floated);
    for rank := 0 to |items|
      invariant |combined| == |floated| + rank
      invariant combined[..|floated|] == Floats(floated)
      invariant forall i | 0 <= i < rank :: combined[|floated| + i] == Ranked(items[i], i + 1)
    {
      combined := combined + [Ranked(items[rank], rank + 1)];
    }
    assert combined[|floated|..] == Ranks(items);
    assert combined == combined[..|floated|] + combined[|floated|..];
  }

  lemma CombinedIsSlice(floated: seq<Memory>, ranking: seq<Memory>, items: seq<Memory>, combined: seq<Scored>,
                        topK: nat, offset: nat)
    requires NoRepeats(ranking) && items == StoreSearch(ranking, offset + topK, 0, Ids(floated))
    requires combined == Floats(floated) + Ranks(items)
    ensures Slice(combined, offset, offset + topK) == Slice(Stream(floated, ranking), offset, offset + topK)
  {
    PageIsSlice(floated, ranking, offset + topK, topK, offset);
  }

  method PageAfterFloat(floated: seq<Memory>, ranking: seq<Memory>, topK: nat, offset: nat)
    returns (page: seq<Scored>)
    requires NoRepeats(ranking)
    ensures page == Slice(Stream(floated, ranking), offset, offset + topK)
  {
    var items := StoreSearch(ranking, offset + topK, 0, Ids(floated));
    var combined := Combine(floated, items);
    page := Slice(combined, offset, offset + topK);
    CombinedIsSlice(floated, ranking, items, combined, topK, offset);
  }

  /** Keyword-mode search returns the slice [offset, offset + topK) of the combined stream. */
  method KeywordSearch(ranking: seq<Memory>, pins: seq<Memory>, includePinned: bool, pinnedLimit: nat, topK: nat, offset: nat)
    returns (page: seq<Scored>)
    requires NoRepeats(ranking)
    ensures page == Slice(Stream(Floated(pins, includePinned, pinnedLimit), ranking), offset, offset + topK)
  {
    var floated := Floated(pins, includePinned, pinnedLimit);
    page := PageAfterFloat(floated, ranking, topK, offset);
  }

  /** Hybrid search whose provider failed: it over-fetched twice as much, and returns the same page. */
  method DegradedHybridSearch(ranking: seq<Memory>, pins: seq<Memory>, includePinned: bool, pinnedLimit: nat, topK: nat, offset: nat)
    returns (page: seq<Scored>)
    requires NoRepeats(ranking)
    ensures page == Slice(Stream(Floated(pins, includePinned, pinnedLimit), ranking), offset, offset + topK)
  {
    var effective := topK + offset;
    var floated := Floated(pins, includePinned, pinnedLimit);
    var keywordResults := StoreSearch(ranking, effective * 2, 0, Ids(floated));
    PageIsSlice(floated, ranking, effective * 2, topK, offset);
    page := Slice(Floats(floated) + Ranks(keywordResults), offset, offset + topK);
  }

  /** What floats: nothing when pins are hidden or the limit is nothing, and otherwise the first of the pins,
  as many as the limit allows. */
  lemma FloatsWhenAsked(pins: seq<Memory>, includePinned: bool, pinnedLimit: nat)
    ensures var f := Floated(pins, includePinned, pinnedLimit);
            && f <= pins
            && |f| == (if !includePinned then 0 else if pinnedLimit < |pins| then pinnedLimit else |pins|)
  {
  }

  lemma SliceOfTwo<T>(a: seq<T>, b: seq<T>, offset: nat, k: nat, i: nat)
    ensures var n, page := |a|, Slice(a + b, offset, offset + k);
            && |page| == (if n + |b| <= offset then 0 else if n + |b| - offset < k then n + |b| - offset else k)
            && (i < |page| ==> page[i] == if offset + i < n then a[offset + i] else b[offset + i - n])
  {
  }

  lemma SliceOfRows(floated: seq<Memory>, rest: seq<Memory>, topK: nat, offset: nat, page: seq<Scored>, i: nat)
    requires page == Slice(Floats(floated) + Ranks(rest), offset, offset + topK) && i < |page|
    ensures offset + i < |floated| + |rest|
    ensures page[i] == if offset + i < |floated| then Scored(floated[offset + i], PinnedFloat, None, None, None)
                       else Scored(rest[offset + i - |floated|], Keyword, None, None, Some(offset + i - |floated| + 1))
  {
    SliceOfTwo(Floats(floated), Ranks(rest), offset, topK, i);
  }

  // The rows of the page: first these pins, in their order; behind them the ranked memories that do not float,
  // in the order of the ranking, each with its place among them as its rank.
  ghost predicate IsPage(pins: seq<Memory>, rest: seq<Memory>, topK: nat, offset: nat, page: seq<Scored>) {
    var n := |pins|;
    && |page| == (if n + |rest| <= offset then 0 else if n + |rest| - offset < topK then n + |rest| - offset else topK)
    && forall i | 0 <= i < |page| ::
         page[i] == if offset + i < n then Scored(pins[offset + i], PinnedFloat, None, None, None)
                    else Scored(rest[offset + i - n], Keyword, None, None, Some(offset + i - n + 1))
  }

  /** The page, row by row: the pins as many as float when they are shown, then the rest of the ranking. */
  lemma PageIsExact(pins: seq<Memory>, ranking: seq<Memory>, includePinned: bool, pinnedLimit: nat,
                    topK: nat, offset: nat, floats: seq<Memory>, rest: seq<Memory>)
    requires floats == (if !includePinned then [] else if pinnedLimit < |pins| then pins[..pinnedLimit] else pins)
    requires IsLeft(floats, ranking, rest)
    ensures IsPage(floats, rest, topK, offset,
                   Slice(Stream(Floated(pins, includePinned, pinnedLimit), ranking), offset, offset + topK))
  {
    FloatsWhenAsked(pins, includePinned, pinnedLimit);
    assert Floated(pins, includePinned, pinnedLimit) == floats;
    LeftIsWithout(floats, ranking, rest);
    SliceIsPage(floats, rest, topK, offset);
  }

  lemma SliceIsPage(floats: seq<Memory>, rest: seq<Memory>, topK: nat, offset: nat)
    ensures IsPage(floats, rest, topK, offset, Slice(Floats(floats) + Ranks(rest), offset, offset + topK))
  {
    var page := Slice(Floats(floats) + Ranks(rest), offset, offset + topK);
    SliceOfTwo(Floats(floats), Ranks(rest), offset, topK, 0);
    forall i | 0 <= i < |page|
      ensures offset + i < |floats| + |rest|
      ensures page[i] == if offset + i < |floats| then Scored(floats[offset + i], PinnedFloat, None, None, None)
                         else Scored(rest[offset + i - |floats|], Keyword, None, None, Some(offset + i - |floats| + 1))
    {
      SliceOfRows(floats, rest, topK, offset, page, i);
    }
  }

  // These are the ranked memories that do not float, in their order.
  predicate IsLeft(floated: seq<Memory>, ranking: seq<Memory>, rest: seq<Memory>)
    decreases |ranking|
  {
    if ranking == [] then rest == []
    else if exists pin :: pin in floated && pin.id == ranking[0].id then IsLeft(floated, ranking[1..], rest)
    else rest != [] && rest[0] == ranking[0] && IsLeft(floated, ranking[1..], rest[1..])
  }

  lemma FloatsIffInIds(floated: seq<Memory>, id: Id)
    ensures id in Ids(floated) <==> exists pin :: pin in floated && pin.id == id
  {
    forall k | 0 <= k < |floated| && floated[k].id == id
      ensures exists pin :: pin in floated && pin.id == id
    {
      assert floated[k] in floated;
    }
  }

  lemma {:induction false} LeftIsWithout(floated: seq<Memory>, ranking: seq<Memory>, rest: seq<Memory>)
    requires IsLeft(floated, ranking, rest)
    ensures rest == Without(ranking, Ids(floated))
    decreases |ranking|
  {
    if ranking != [] {
      var floats := exists pin :: pin in floated && pin.id == ranking[0].id;
      FloatsIffInIds(floated, ranking[0].id);
      if floats {
        LeftIsWithout(floated, ranking[1..], rest);
      } else {
        LeftIsWithout(floated, ranking[1..], rest[1..]);
        assert rest == [rest[0]] + rest[1..];
      }
    }
  }

  // The rows of a page of these memories
  predicate IsPageOf(rest: seq<Memory>, topK: nat, offset: nat, page: seq<Memory>) {
    && |page| == (if |rest| <= offset then 0 else if |rest| - offset < topK then |rest| - offset else topK)
    && forall i | 0 <= i < |page| :: page[i] == rest[offset + i]
  }

  lemma SliceIsPageOf(rest: seq<Memory>, topK: nat, offset: nat)
    ensures IsPageOf(rest, topK, offset, Slice(rest, offset, offset + topK))
  {
  }

  lemma SliceOfSame<T>(s: seq<T>, t: seq<T>, from: nat, to: nat)
    requires Take(s, to) == Take(t, to)
    ensures Slice(s, from, to) == Slice(t, from, to)
  {
    SliceTake(s, from, to);
    SliceTake(t, from, to);
  }

  lemma StorePageIsSlice(ranking: seq<Memory>, topK: nat, offset: nat, exclude: set<Id>, page: seq<Memory>)
    requires NoRepeats(ranking) && page == StoreSearch(ranking, topK, offset, exclude)
    ensures page == Slice(Without(ranking, exclude), offset, offset + topK)
  {
    var survivors := Fetched(ranking, topK, offset, exclude);
    SliceOfSame(survivors, Without(ranking, exclude), offset, offset + topK);
  }

  /** A store search that excludes the floats returns its page of the ranked memories that do not float. */
  lemma StorePageIsExact(ranking: seq<Memory>, topK: nat, offset: nat, floats: seq<Memory>, rest: seq<Memory>, page: seq<Memory>)
    requires NoRepeats(ranking) && IsLeft(floats, ranking, rest)
    requires page == StoreSearch(ranking, topK, offset, Ids(floats))
    ensures IsPageOf(rest, topK, offset, page)
  {
    LeftIsWithout(floats, ranking, rest);
    StorePageIsSlice(ranking, topK, offset, Ids(floats), page);
    SliceIsPageOf(rest, topK, offset);
  }

  /** Pages tile the stream: consecutive pages join without a gap, and no page exceeds its budget. */
  lemma PagesTile<T>(stream: seq<T>, offset: nat, k: nat, next: nat)
    ensures Slice(stream, offset, offset + k) + Slice(stream, offset + k, offset + k + next)
         == Slice(stream, offset, offset + k + next)
    ensures |Slice(stream, offset, offset + k)| <= k
  {
  }

  lemma ConsKeeps(head: Memory, rest: seq<Memory>)
    requires NoRepeats(rest) && forall x | x in rest :: x.id != head.id
    ensures NoRepeats([head] + rest)
  {
    var w := [head] + rest;
    forall i, j | 0 <= i < j < |w| ensures w[i].id != w[j].id {
      assert w[j] == rest[j - 1] && rest[j - 1] in rest;
      assert i > 0 ==> w[i] == rest[i - 1];
    }
  }

  lemma {:induction false} WithoutKeeps(items: seq<Memory>, ids: set<Id>)
    requires NoRepeats(items)
    ensures NoRepeats(Without(items, ids))
    ensures forall x :: x in Without(items, ids) <==> x in items && x.id !in ids
  {
    if items != [] {
      var head, rest := items[0], items[1..];
      Tail(items);
      WithoutKeeps(rest, ids);
      assert items == [head] + rest;
      if head.id in ids {
        assert Without(items, ids) == Without(rest, ids);
      } else {
        ConsKeeps(head, Without(rest, ids));
        assert Without(items, ids) == [head] + Without(rest, ids);
      }
    }
  }

  /** No memory appears twice in the stream, so none appears on two pages; and every ranked memory, pinned
  or not, is somewhere in it. */
  lemma StreamHasEachMemoryOnce(floated: seq<Memory>, ranking: seq<Memory>)
    requires NoRepeats(floated) && NoRepeats(ranking)
    ensures var s := Stream(floated, ranking);
            && (forall i, j | 0 <= i < j < |s| :: s[i].item.id != s[j].item.id)
            && (forall x | x in ranking :: exists i :: 0 <= i < |s| && s[i].item.id == x.id)
  {
    var e := Ids(floated);
    var rest := Without(ranking, e);
    var s := Stream(floated, ranking);
    WithoutKeeps(ranking, e);
    forall i, j | 0 <= i < j < |s| ensures s[i].item.id != s[j].item.id {
      if i < |floated| && j >= |floated| {
        assert s[j].item == rest[j - |floated|] && rest[j - |floated|] in rest;
        assert floated[i].id in e;
      } else if i >= |floated| {
        assert s[i].item == rest[i - |floated|] && s[j].item == rest[j - |floated|];
      }
    }
    forall x | x in ranking ensures exists i :: 0 <= i < |s| && s[i].item.id == x.id {
      if x.id in e {
        var i :| 0 <= i < |floated| && floated[i].id == x.id;
        assert s[i].item.id == x.id;
      } else {
        var i :| 0 <= i < |rest| && rest[i] == x;
        assert s[|floated| + i].item.id == x.id;
      }
    }
  }
}
