/** Which logs decode to a payload: those whose records are its slices, each once, in any spelling. */
module ArtifactRecords {
  import opened Common
  import opened Base64
  import opened ArtifactCodec
  import ArtifactLaws

  // What the decoder makes of one line
  datatype Reading = Plain | Broken | Carried(record: Record)

  function Read(line: string): Reading {
    var s := Strip(line);
    if "OC_BENCHMARK_ARTIFACT_V1 " <= s then
      var r := ReadRecord(s[25..]);
      if r.None? then Broken else Carried(r.value)
    else if exists i :: 0 <= i <= |s| && "OC_BENCHMARK_ARTIFACT_V1 " <= s[i..] then Broken
    else Plain
  }

  function Each<S, T>(s: seq<S>, f: S -> T): (r: seq<T>)
    ensures |r| == |s| && forall i :: 0 <= i < |s| ==> r[i] == f(s[i])
    decreases |s|
  {
    if s == [] then [] else Each(s[..|s| - 1], f) + [f(s[|s| - 1])]
  }

  function ReadAll(lines: seq<string>): seq<Reading> {
    Each(lines, Read)
  }

  lemma ReadLineIs(st: State, line: string)
    ensures match Read(line)
            case Plain => ReadLine(st, line) == Success(st)
            case Broken => ReadLine(st, line).Failure?
            case Carried(r) => ReadLine(st, line) == ReadInto(st, r)
  {
    var s := Strip(line);
    assert PREFIX == "OC_BENCHMARK_ARTIFACT_V1 " && |PREFIX| == 25;
    if exists i :: 0 <= i <= |s| && PREFIX <= s[i..] {
      var i :| 0 <= i <= |s| && PREFIX <= s[i..];
      assert StartsWith(s[i..], PREFIX);
    }
  }

  // ---------- the state after reading, without saying how it came about ----------

  ghost predicate Fits(st: State) {
    match st.header
    case None => st.chunks == map[]
    case Some(h) =>
      && 0 < h.size <= MAX && h.count == ChunkCount(h.size) && st.chunks != map[]
      && forall k | k in st.chunks :: 1 <= k <= h.count && FitsAt(h, k, st.chunks[k])
  }

  predicate FitsAt(h: Header, k: nat, chunk: Bytes) {
    |chunk| == if k < h.count then CHUNK else h.size - CHUNK * (h.count - 1)
  }

  predicate Within(line: Reading, st: State) {
    match line
    case Plain => true
    case Broken => false
    case Carried(r) => st.header == Some(r.header) && r.index in st.chunks && Decode(r.text) == Some(st.chunks[r.index])
  }

  predicate Differ(a: Reading, b: Reading) {
    a.Carried? && b.Carried? ==> a.record.index != b.record.index
  }

  predicate NoneTwice(lines: seq<Reading>) {
    forall i, j | 0 <= i < j < |lines| :: Differ(lines[i], lines[j])
  }

  predicate Numbered(line: Reading, k: nat) {
    line.Carried? && line.record.index == k
  }

  predicate Occurs(lines: seq<Reading>, k: nat) {
    exists i :: 0 <= i < |lines| && Numbered(lines[i], k)
  }

  ghost predicate Reached(lines: seq<Reading>, st: State) {
    && Fits(st) && NoneTwice(lines)
    && (forall i | 0 <= i < |lines| :: Within(lines[i], st))
    && (forall k | k in st.chunks :: Occurs(lines, k))
  }

  lemma SnocOccurs(lines: seq<Reading>, last: Reading, k: nat)
    ensures Occurs(lines + [last], k) <==> Occurs(lines, k) || Numbered(last, k)
  {
    var all := lines + [last];
    if Occurs(lines, k) {
      var i :| 0 <= i < |lines| && Numbered(lines[i], k);
      assert Numbered(all[i], k);
    }
    if Numbered(last, k) {
      assert Numbered(all[|lines|], k);
    }
  }

  lemma SnocTwice(lines: seq<Reading>, last: Reading)
    ensures NoneTwice(lines + [last]) <==> NoneTwice(lines) && (last.Carried? ==> !Occurs(lines, last.record.index))
  {
    var all := lines + [last];
    assert all[|lines|] == last && forall i | 0 <= i < |lines| :: all[i] == lines[i];
    forall i, j | 0 <= i < j < |lines| && !Differ(lines[i], lines[j])
      ensures !NoneTwice(all)
    {
      assert !Differ(all[i], all[j]);
    }
    forall i | 0 <= i < |lines| && last.Carried? && Numbered(lines[i], last.record.index)
      ensures !NoneTwice(all)
    {
      assert !Differ(all[i], all[|lines|]);
    }
  }

  lemma ReachPlain(lines: seq<Reading>, st: State)
    ensures Reached(lines + [Plain], st) <==> Reached(lines, st)
  {
    var all := lines + [Plain];
    SnocTwice(lines, Plain);
    assert all[|lines|] == Plain && forall i | 0 <= i < |lines| :: all[i] == lines[i];
    forall k
      ensures Occurs(all, k) <==> Occurs(lines, k)
    {
      SnocOccurs(lines, Plain, k);
    }
    if Reached(all, st) {
      forall i | 0 <= i < |lines|
        ensures Within(lines[i], st)
      {
        assert Within(all[i], st);
      }
    }
  }

  lemma OccurringIsHeld(lines: seq<Reading>, st: State, k: nat)
    requires Reached(lines, st)
    ensures Occurs(lines, k) ==> k in st.chunks
  {
    forall i | 0 <= i < |lines| && Numbered(lines[i], k)
      ensures k in st.chunks
    {
      assert Within(lines[i], st);
    }
  }

  lemma ReachOneMore(lines: seq<Reading>, st: State, r: Record)
    requires Reached(lines, st) && ReadInto(st, r).Success?
    ensures Reached(lines + [Carried(r)], ReadInto(st, r).value)
  {
    var all, next := lines + [Carried(r)], ReadInto(st, r).value;
    OccurringIsHeld(lines, st, r.index);
    SnocTwice(lines, Carried(r));
    forall i | 0 <= i < |all|
      ensures Within(all[i], next)
    {
      if i < |lines| {
        assert Within(lines[i], st);
      }
    }
    forall k | k in next.chunks
      ensures Occurs(all, k)
    {
      SnocOccurs(lines, Carried(r), k);
    }
  }

  // The state before the last record was read
  function Before(st: State, r: Record): State {
    var rest := st.chunks - {r.index};
    State(if rest == map[] then None else st.header, rest)
  }

  lemma WithoutOne(chunks: map<nat, Bytes>, k: nat)
    requires k in chunks
    ensures (chunks - {k})[k := chunks[k]] == chunks
  {
  }

  lemma ReachOneLess(lines: seq<Reading>, st: State, r: Record)
    requires Reached(lines + [Carried(r)], st)
    ensures Reached(lines, Before(st, r)) && ReadInto(Before(st, r), r) == Success(st)
  {
    var all, before := lines + [Carried(r)], Before(st, r);
    assert Within(all[|lines|], st);
    SnocTwice(lines, Carried(r));
    WithoutOne(st.chunks, r.index);
    forall k | k in before.chunks
      ensures Occurs(lines, k)
    {
      SnocOccurs(lines, Carried(r), k);
    }
    forall i | 0 <= i < |lines|
      ensures Within(lines[i], before)
    {
      assert Within(all[i], st);
      assert !Numbered(lines[i], r.index);
    }
  }

  lemma ReadAllSnoc(lines: seq<string>)
    requires lines != []
    ensures ReadAll(lines) == ReadAll(lines[..|lines| - 1]) + [Read(lines[|lines| - 1])]
  {
  }

  lemma {:induction false} ReadMeansReached(lines: seq<string>)
    ensures ReadLines(lines).Success? ==> Reached(ReadAll(lines), ReadLines(lines).value)
    decreases |lines|
  {
    if lines != [] && ReadLines(lines).Success? {
      var n := |lines| - 1;
      var before, last := ReadLines(lines[..n]).value, Read(lines[n]);
      ReadAllSnoc(lines);
      ReadMeansReached(lines[..n]);
      ReadLineIs(before, lines[n]);
      if last.Carried? {
        ReachOneMore(ReadAll(lines[..n]), before, last.record);
      } else {
        ReachPlain(ReadAll(lines[..n]), before);
      }
    }
  }

  lemma NothingReached(st: State)
    requires Reached([], st)
    ensures st == State(None, map[])
  {
    assert forall k | k in st.chunks :: Occurs([], k);
    assert st.chunks == map[];
  }

  lemma {:induction false} ReachedMeansRead(lines: seq<string>, st: State)
    requires Reached(ReadAll(lines), st)
    ensures ReadLines(lines) == Success(st)
    decreases |lines|
  {
    if lines == [] {
      NothingReached(st);
    } else {
      var n := |lines| - 1;
      var init, last := ReadAll(lines[..n]), Read(lines[n]);
      ReadAllSnoc(lines);
      assert Within(ReadAll(lines)[n], st);
      if last.Carried? {
        ReachOneLess(init, st, last.record);
        ReachedMeansRead(lines[..n], Before(st, last.record));
        ReadLineIs(Before(st, last.record), lines[n]);
      } else {
        ReachPlain(init, st);
        ReachedMeansRead(lines[..n], st);
        ReadLineIs(st, lines[n]);
      }
    }
  }

  /** The loop succeeds with exactly the state that its lines describe. */
  lemma ReadsExactly(lines: seq<string>, st: State)
    ensures ReadLines(lines) == Success(st) <==> Reached(ReadAll(lines), st)
  {
    ReadMeansReached(lines);
    if Reached(ReadAll(lines), st) {
      ReachedMeansRead(lines, st);
    }
  }

  // ---------- the payload ----------

  // The k-th slice of 2048 bytes, from 1; the last may be shorter
  function SliceOf(payload: Bytes, k: nat): Bytes
    requires 1 <= k && 2048 * (k - 1) <= |payload|
  {
    if 2048 * k <= |payload| then payload[2048 * (k - 1)..2048 * k] else payload[2048 * (k - 1)..]
  }

  lemma SliceIsChunk(payload: Bytes, k: nat)
    requires 1 <= k <= ChunkCount(|payload|)
    ensures 2048 * (k - 1) <= |payload| && SliceOf(payload, k) == Chunk(payload, k - 1)
  {
  }

  ghost predicate HasChunks(chunks: map<nat, Bytes>, h: Header, n: nat) {
    forall k: nat | 1 <= k <= n :: k in chunks && FitsAt(h, k, chunks[k])
  }

  lemma ChunkOfLonger(init: Bytes, more: Bytes, k: nat)
    requires CHUNK * (k + 1) <= |init|
    ensures Chunk(init + more, k) == Chunk(init, k)
  {
  }

  lemma LastChunk(init: Bytes, more: Bytes, n: nat)
    requires |init| == CHUNK * n && |more| <= CHUNK
    ensures Chunk(init + more, n) == more
  {
    assert (init + more)[|init|..] == more;
  }

  ghost predicate AreChunks(chunks: map<nat, Bytes>, joined: Bytes, n: nat) {
    forall k: nat | 1 <= k <= n :: k in chunks && chunks[k] == Chunk(joined, k - 1)
  }

  lemma MoreChunks(chunks: map<nat, Bytes>, init: Bytes, n: nat)
    requires AreChunks(chunks, init, n) && |init| == CHUNK * n && n + 1 in chunks && |chunks[n + 1]| <= CHUNK
    ensures AreChunks(chunks, init + chunks[n + 1], n + 1)
  {
    forall k: nat | 1 <= k <= n + 1
      ensures k in chunks && chunks[k] == Chunk(init + chunks[n + 1], k - 1)
    {
      if k <= n {
        assert chunks[k] == Chunk(init, k - 1);
        ChunkOfLonger(init, chunks[n + 1], k - 1);
      } else {
        LastChunk(init, chunks[n + 1], n);
      }
    }
  }

  lemma FittingIsShort(h: Header, n: nat, chunk: Bytes)
    requires 1 <= n <= h.count && FitsAt(h, n, chunk) && 0 < h.size && h.count == ChunkCount(h.size)
    ensures 0 < |chunk| <= CHUNK && CHUNK * (n - 1) + |chunk| == (if n < h.count then CHUNK * n else h.size)
  {
  }

  // What is joined from chunks that fit can be cut into them again.
  lemma {:induction false} CutAgain(chunks: map<nat, Bytes>, h: Header, n: nat)
    requires n <= h.count && HasChunks(chunks, h, n) && 0 < h.size && h.count == ChunkCount(h.size)
    ensures |Join(chunks, n)| == (if n < h.count then CHUNK * n else h.size) && AreChunks(chunks, Join(chunks, n), n)
    decreases n
  {
    if n > 0 {
      CutAgain(chunks, h, n - 1);
      assert FitsAt(h, n, chunks[n]);
      FittingIsShort(h, n, chunks[n]);
      MoreChunks(chunks, Join(chunks, n - 1), n - 1);
    }
  }

  ghost predicate HoldsSlices(chunks: map<nat, Bytes>, payload: Bytes) {
    forall k: nat | 1 <= k <= ChunkCount(|payload|) :: k in chunks && chunks[k] == Chunk(payload, k - 1)
  }

  lemma FinishesExactly(env: Env, st: State, payload: Bytes)
    requires Fits(st)
    ensures Finish(env, st) == Success(payload)
       <==> Acceptable(env, payload) && st.header == Some(HeaderOf(env, payload)) && HoldsSlices(st.chunks, payload)
  {
    if st.header.Some? {
      var h := st.header.value;
      AllOrMissing(st);
      if |st.chunks| == h.count {
        CutAgain(st.chunks, h, h.count);
      }
      if h == HeaderOf(env, payload) && HoldsSlices(st.chunks, payload) {
        ArtifactLaws.JoinedChunks(payload, st.chunks, h.count);
      }
    }
  }

  // ---------- the law ----------

  // This record is a slice of the payload, under its header.
  predicate IsSlice(env: Env, payload: Bytes, r: Record) {
    && r.header == Header((|payload| + 2047) / 2048, |payload|, env.sha(payload))
    && 1 <= r.index <= (|payload| + 2047) / 2048
    && 2048 * (r.index - 1) <= |payload|
    && Decode(r.text) == Some(SliceOf(payload, r.index))
  }

  predicate SlicesOnly(env: Env, payload: Bytes, lines: seq<Reading>) {
    forall i | 0 <= i < |lines| :: lines[i].Plain? || (lines[i].Carried? && IsSlice(env, payload, lines[i].record))
  }

  predicate AllSlices(payload: Bytes, lines: seq<Reading>) {
    forall k: nat | 1 <= k <= (|payload| + 2047) / 2048 :: Occurs(lines, k)
  }

  function ChunkAt(payload: Bytes, k: nat): Bytes {
    if k == 0 then [] else Chunk(payload, k - 1)
  }

  function Sliced(env: Env, payload: Bytes): State {
    State(Some(HeaderOf(env, payload)), map k: nat | 1 <= k <= ChunkCount(|payload|) :: ChunkAt(payload, k))
  }

  lemma SlicedFits(env: Env, payload: Bytes)
    requires 0 < |payload| <= MAX
    ensures Fits(Sliced(env, payload))
  {
    var st := Sliced(env, payload);
    assert 1 in st.chunks;
    forall k | k in st.chunks
      ensures FitsAt(HeaderOf(env, payload), k, st.chunks[k])
    {
      ArtifactLaws.ChunkLength(payload, k - 1);
    }
  }

  lemma WithinMeansSlice(env: Env, payload: Bytes, line: Reading)
    requires 0 < |payload|
    ensures Within(line, Sliced(env, payload)) <==> line.Plain? || (line.Carried? && IsSlice(env, payload, line.record))
  {
    if line.Carried? && 1 <= line.record.index <= ChunkCount(|payload|) {
      SliceIsChunk(payload, line.record.index);
    }
  }

  lemma ReachesTheSlices(env: Env, payload: Bytes, lines: seq<Reading>)
    requires 0 < |payload| <= MAX
    ensures Reached(lines, Sliced(env, payload))
       <==> SlicesOnly(env, payload, lines) && NoneTwice(lines) && AllSlices(payload, lines)
  {
    var st := Sliced(env, payload);
    SlicedFits(env, payload);
    forall i | 0 <= i < |lines|
      ensures Within(lines[i], st) <==> lines[i].Plain? || (lines[i].Carried? && IsSlice(env, payload, lines[i].record))
    {
      WithinMeansSlice(env, payload, lines[i]);
    }
    assert forall k: nat :: k in st.chunks <==> 1 <= k <= (|payload| + 2047) / 2048;
  }

  lemma FinishesWithTheSlices(env: Env, st: State, payload: Bytes)
    requires Fits(st)
    ensures Finish(env, st) == Success(payload) <==> Acceptable(env, payload) && st == Sliced(env, payload)
  {
    FinishesExactly(env, st, payload);
    if st.header == Some(HeaderOf(env, payload)) && HoldsSlices(st.chunks, payload) {
      assert st.chunks == Sliced(env, payload).chunks;
    }
  }

  lemma DecodesToTheSlices(env: Env, payload: Bytes, lines: seq<string>, size: nat)
    ensures DecodeLog(env, lines, size) == Success(payload) <==>
              size <= MAX * 3 && Acceptable(env, payload) && ReadLines(lines) == Success(Sliced(env, payload))
  {
    if ReadLines(lines).Success? {
      ReadMeansReached(lines);
      FinishesWithTheSlices(env, ReadLines(lines).value, payload);
    }
  }

  /** A log decodes to a payload exactly when it is not too long, the payload is an acceptable report, every
    * line is a record of a slice of it or has no marker at all, and each slice is there once. */
  lemma DecodesExactlyTheSlices(env: Env, payload: Bytes, lines: seq<string>, size: nat)
    ensures DecodeLog(env, lines, size) == Success(payload) <==>
              && size <= 6291456 && 0 < |payload| <= 2097152 && env.isObject(payload)
              && SlicesOnly(env, payload, ReadAll(lines)) && NoneTwice(ReadAll(lines)) && AllSlices(payload, ReadAll(lines))
  {
    DecodesToTheSlices(env, payload, lines, size);
    ReadsExactly(lines, Sliced(env, payload));
    if 0 < |payload| <= MAX {
      ReachesTheSlices(env, payload, ReadAll(lines));
    }
  }
}
